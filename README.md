# LinkedIn automation run, modelled in Dafny

This project models the control logic of a small Playwright script that logs
in to LinkedIn with human-like timing. The logic lives in `src/main.ts` and
the four modules it drives:
- `src/main.ts` launches the browser. Inside a try/catch/finally it restores
  the site's session cookies, dispatches on the site key, saves the cookies
  and logs success. On an exception it logs the error and takes a diagnostic
  screenshot. Finally it closes the browser.
- `src/core/sessionManager.ts` computes the session file path and saves or
  loads the cookie jar, swallowing every error.
- `src/core/utils.ts` has `randomDelay` and `typeWithDelay`, which types a
  text character by character with random delays.
- `src/sites/linkedinLogin.ts` holds the credential check made at import and
  the `loginToLinkedIn` step sequence.
- `src/core/errorHandler.ts` holds `captureErrorScreenshot`, covering the
  directory default, the timestamped file name and swallowed errors.

The browser, file system, timer and logger are one abstract environment
(module `Environment`):
- A `World` holds the trace of calls made, whether the browser is open, the
  cookie jar, the page's input fields, a file map, a directory set, and how
  many `Math.random()` values have been drawn.
- An `Oracle`, fixed in advance, says which calls throw (by their position
  in the trace) and what each `Math.random()` returns.
- `Apply` makes one call. It records the call, applies the call's effect
  when it returns normally, and still refuses what the file system itself
  refuses (reading a missing file, mkdir over a file, writing onto a
  directory).
- `class Host` is the same environment as a mutable object.

Every function of the program that changes things step by step is an
imperative method on a `Host`. Its `ensures` ties the new state to a
specification function of the old state:
`SaveSession`, `LoadSession`, `TypeWithDelay`, `RandomDelay`, `Login` and its
steps, `CaptureErrorScreenshot`, and the script itself, `Automation.Run`.
The properties are lemmas about those specification functions.

Files:
- `environment.dfy`: `Environment`, the world, oracle, calls, host and call counting.
- `paths.dfy`: `NodePath`, `path.join` and `path.dirname`.
- `utils.dfy`: `Utils`.
- `session.dfy`: `SessionManager`.
- `errorhandler.dfy`: `ErrorHandler`.
- `login.dfy`: `LinkedInLogin`.
- `main.dfy`: `Automation`, the run.

## Model

| member | source | states |
|---|---|---|
| Automation.Lower | src/main.ts:11 | the key keeps its length, and each character is lowered independently (ASCII A–Z to a–z) |
| Automation.LowerIdempotent | src/main.ts:11 | lowering an already lowered key changes nothing |
| Automation.LowerHasNoCapitals | src/main.ts:11 | a lowered key contains no upper-case ASCII letter |
| Automation.Dispatch | src/main.ts:20-24 | models the dispatch; its contract says only that it appends to the trace |
| Automation.DispatchOutcome | src/main.ts:20-24 | the dispatch throws exactly when the key is "linkedin" and the login throws; any other key records only the warning line |
| Automation.DispatchCalls | src/main.ts:20-24 | the dispatch never launches, closes, checks files, reads cookies, screenshots or writes; when it throws nothing was logged at the success level |
| Automation.BodySpec | src/main.ts:15-29 | models the try body; its contract says only that it appends to the trace |
| Automation.BodyLayout | src/main.ts:17-29 | the body's trace is the load, then the dispatch, then, only if the dispatch returned, the save and the success line |
| Automation.BodyCalls | src/main.ts:17-29 | the body checks the session file once and never launches, closes or screenshots; it reads cookies (the save) exactly when it returns; when it throws it writes nothing and logs no success; when it returns its last line is the success line |
| Automation.RecoverSpec | src/main.ts:30-39 | models the catch block; its contract says only that it appends to the trace |
| Automation.RecoverCalls | src/main.ts:30-39 | the catch block checks the screenshot directory once, takes at most one screenshot, reads no cookies, writes no file, never closes, and logs no success |
| Automation.FinallySpec | src/main.ts:40-43 | models the finally block; its contract says only that it appends to the trace |
| Automation.FinallyCalls | src/main.ts:40-43 | the finally block is exactly one close; "Browser closed." follows exactly when close returned, and an exception escapes exactly when close threw |
| Automation.AfterLaunch | src/main.ts:11-43 | models everything after a successful launch; its contract says only that it appends to the trace |
| Automation.AfterLaunchLayout | src/main.ts:13-43 | after launch the trace is the start line, the body, the catch block only if the body threw, then the finally block |
| Automation.AfterLaunchCalls | src/main.ts:15-43 | after launch: exactly one close and no second launch; two file checks (session file, screenshot directory) if the body threw, else one; at most one screenshot, and none unless the body threw; one cookie read exactly when the body returned; no write when it threw |
| Automation.AfterLaunchSuccessLine | src/main.ts:21-32 | if the body threw, no line of the run is at the success level; otherwise the success line is in the trace |
| Automation.AfterLaunchLoadsFirst | src/main.ts:13-24 | right after the start line comes the whole session load; it starts with the check for the session file and holds only load calls, before any dispatch call |
| Automation.AfterLaunchOtherSite | src/main.ts:20-29 | a key other than "linkedin" never makes the body throw, and its warning line is in the trace |
| Automation.RunSpec | src/main.ts:8-44 | models the whole script; its contract says only that it appends to the trace |
| Automation.RunWithoutCredentials | src/sites/linkedinLogin.ts:12-17 | when EMAIL or PASSWORD is unset or empty, the credential check throws on import, so nothing runs and nothing is launched, whatever the site |
| Automation.RunLaunchFails | src/main.ts:9 | a launch that throws is the only call; the exception escapes, with no close and no screenshot |
| Automation.RunCalls | src/main.ts:9-43 | after a successful launch, the launch is the first call and the only launch, plus all the counts of AfterLaunchCalls |
| Automation.RunThrowsOnlyInLogin | src/main.ts:11-24 | the body throws only if the launch succeeded and the lowered key is "linkedin" |
| Automation.Run | src/main.ts:8-44 | the script's new state and outcome are RunSpec of the old state |
| Automation.Body | src/main.ts:15-29 | the try body's new state and outcome are BodySpec with the session file of the site |
| Automation.Recover | src/main.ts:30-39 | the catch block's new state is RecoverSpec with the configured screenshot directory |
| NodePath.JoinShape | src/core/sessionManager.ts:15 | path.join drops an empty directory; otherwise exactly one '/' separates directory and name |
| NodePath.Dirname | src/core/sessionManager.ts:30 | path.dirname is never empty, and differs from any path longer than one character |
| NodePath.DirnameOfJoin | src/core/sessionManager.ts:15-30 | the directory of a name joined onto dir is dir without its trailing '/' |
| NodePath.JoinInjective | src/core/errorHandler.ts:25 | joining two single-segment names (no '/', not "." or "..") onto one directory gives equal paths only for equal names |
| Utils.DelayWithinBounds | src/core/utils.ts:9 | with min <= max, the delay lies in [min, max] |
| Utils.DelayCoversRange | src/core/utils.ts:9 | every value in [min, max] is the delay for some Math.random() value |
| Utils.DelayNotClamped | src/core/utils.ts:9 | with max < min nothing is clamped, and the delay lies in (max, min] |
| Utils.DelaySpec | src/core/utils.ts:8-11 | randomDelay records one sleep of the computed delay and draws one random value; defaults are 300 and 1500 |
| Utils.RandomDelay | src/core/utils.ts:8-11 | the new state is DelaySpec of the old state |
| Utils.KeystrokeSpec | src/core/utils.ts:32-35 | one loop pass: a keystroke with the drawn delay, then its pause; it throws exactly when the keystroke does, and then there is no pause; only that field grows, by one character |
| Utils.TypeSpec | src/core/utils.ts:23-41 | typing touches only that field, the trace and the draw count, and records only keystrokes on that selector, sleeps or a console error |
| Utils.TypeWithDelay | src/core/utils.ts:23-41 | the loop's new state and outcome are TypeSpec of the old state |
| Utils.Typed | src/core/utils.ts:31-40 | the number of characters typed is at most the length; every keystroke before it succeeded; the next one threw |
| Utils.TypeSpecFail | src/core/utils.ts:37-40 | when the first keystroke throws, the field is unchanged and the console error follows it; the call throws |
| Utils.KeystrokesCount | src/core/utils.ts:31-35 | a keystroke trace has as many pauses as keys, one keystroke per key, and its typed keys are the keys in order |
| Utils.TypingLayout | src/core/utils.ts:31-40 | the trace is the keystrokes of the first n characters, each followed by its pause; then either nothing (returns, n is the length) or the failed keystroke and the console error (throws) |
| Utils.TypingAppendsPrefix | src/core/utils.ts:31-40 | the field gains exactly the first n characters, in order, with no rollback; the call returns exactly when n is the length; empty text types nothing |
| Utils.TypingDelaysWithinBounds | src/core/utils.ts:27-35 | with charDelayMin <= charDelayMax, each keystroke delay is within bounds and each pause is in [50, 150] |
| SessionManager.SessionDir | src/core/sessionManager.ts:14 | a missing or empty setting gives "sessions"; otherwise the setting itself |
| SessionManager.SessionFileLocation | src/core/sessionManager.ts:13-16 | for a key without '/', the file is "sessions/" + site + ".json" and its directory is "sessions" |
| SessionManager.SessionFilePathLong | src/core/sessionManager.ts:13-16 | a session file path is longer than one character, so it is never its own directory |
| SessionManager.SessionFileInjective | src/core/sessionManager.ts:13-16 | distinct keys without '/' never share a session file |
| SessionManager.Serialize | src/core/sessionManager.ts:31 | parsing what serialization wrote gives back the same cookies |
| SessionManager.SaveSpec | src/core/sessionManager.ts:25-37 | saving leaves the browser, the jar, the fields and the draw count alone |
| SessionManager.SaveWritesCookies | src/core/sessionManager.ts:27-33 | when nothing throws, the file holds exactly the jar, unfiltered; the directory is created; the trace is cookies, mkdir, write, saved line |
| SessionManager.SaveFailureLogged | src/core/sessionManager.ts:34-36 | any failure ends on the error line, with no saved line and no file changed; the call does not throw |
| SessionManager.SaveFailsAtCookies | src/core/sessionManager.ts:26-36 | a throwing cookie read is followed only by the error line |
| SessionManager.SaveFailsAtMkdir | src/core/sessionManager.ts:30-36 | a throwing mkdir is followed only by the error line; nothing is written |
| SessionManager.SaveFailsAtWrite | src/core/sessionManager.ts:31-36 | a throwing write leaves the files unchanged and is followed by the error line |
| SessionManager.SaveFootprint | src/core/sessionManager.ts:25-37 | a save reads the cookies exactly once; it never checks or reads files, screenshots, launches or closes; it makes only cookie, mkdir, write and log calls |
| SessionManager.LoadSpec | src/core/sessionManager.ts:46-63 | loading leaves the browser, the fields, the files and the draw count alone |
| SessionManager.LoadWithoutFile | src/core/sessionManager.ts:49-52 | with no file, only the check and the warning happen, and the jar is unchanged |
| SessionManager.LoadInjectsCookies | src/core/sessionManager.ts:54-59 | when nothing throws, exactly the parsed cookies are added to the jar, and the loaded line follows |
| SessionManager.LoadFailureSwallowed | src/core/sessionManager.ts:60-62 | any failure after the check leaves the jar alone and ends on the error line; the call does not throw |
| SessionManager.LoadFailsAtRead | src/core/sessionManager.ts:55 | a read that throws goes straight to the error line |
| SessionManager.LoadFailsAtParse | src/core/sessionManager.ts:56 | contents that do not parse go straight to the error line, with no addCookies |
| SessionManager.LoadFailsAtAdd | src/core/sessionManager.ts:57 | a throwing addCookies leaves the jar alone and is followed by the error line |
| SessionManager.LoadFootprint | src/core/sessionManager.ts:46-63 | a load starts with the file check and checks exactly once; it never reads cookies, writes, screenshots, launches or closes, and never logs at the success level |
| SessionManager.SaveThenLoad | src/core/sessionManager.ts:27-57 | after a save that went through, a load in any context (whose read and add do not throw) adds exactly the saved cookies |
| SessionManager.SaveSession | src/core/sessionManager.ts:25-37 | the new state is SaveSpec at the site's session file |
| SessionManager.LoadSession | src/core/sessionManager.ts:46-63 | the new state is LoadSpec at the site's session file |
| ErrorHandler.ScreenshotDir | src/core/errorHandler.ts:15 | only a missing setting falls back to "screenshots"; an empty setting is kept |
| ErrorHandler.Sanitize | src/core/errorHandler.ts:23 | same length; every ':' and '.' becomes '-' and other characters stay; the result has no ':' or '.' |
| ErrorHandler.SanitizeIdempotent | src/core/errorHandler.ts:23 | cleaning a timestamp twice is cleaning it once |
| ErrorHandler.SanitizeKeepsSafe | src/core/errorHandler.ts:23 | a timestamp without ':' or '.' is unchanged |
| ErrorHandler.FileNameLayout | src/core/errorHandler.ts:24 | the file name is the label verbatim, '-', the cleaned timestamp and ".png" |
| ErrorHandler.FileNameInjective | src/core/errorHandler.ts:24 | at one timestamp, distinct labels give distinct file names |
| ErrorHandler.CaptureSpec | src/core/errorHandler.ts:13-33 | capturing leaves the browser, the jar, the fields and the draw count alone |
| ErrorHandler.CaptureIntoPresentDir | src/core/errorHandler.ts:18-29 | with the directory present: the check, no mkdir, a full-page screenshot at join(dir, name), then the log line; only that file changes |
| ErrorHandler.CaptureIntoNewDir | src/core/errorHandler.ts:18-29 | a missing directory is checked and created, then the screenshot and the log line |
| ErrorHandler.CaptureWithoutDir | src/core/errorHandler.ts:18-32 | a mkdir that throws is followed only by the error line: no screenshot, no new file |
| ErrorHandler.CaptureCounts | src/core/errorHandler.ts:14-32 | one directory check; mkdir exactly when the directory was missing; one screenshot exactly when the directory is ready; none of the other counted calls; no success line |
| ErrorHandler.CaptureLogsOutcome | src/core/errorHandler.ts:28-32 | the last line is the saved line exactly when the screenshot went through, and the error line exactly when it did not |
| ErrorHandler.CaptureErrorScreenshot | src/core/errorHandler.ts:13-33 | the new state is CaptureSpec in the configured directory |
| LinkedInLogin.LoadCredentials | src/sites/linkedinLogin.ts:12-17 | credentials exist exactly when both variables are set and non-empty, and they carry those values |
| LinkedInLogin.Next | src/sites/linkedinLogin.ts:27-49 | each stage is followed by the one a single step closer to the end |
| LinkedInLogin.FillStep | src/sites/linkedinLogin.ts:34-41 | models click-then-type; its contract says only that it appends to the trace |
| LinkedInLogin.Step | src/sites/linkedinLogin.ts:27-49 | models one stage's step; its contract says only that it appends to the trace |
| LinkedInLogin.Advance | src/sites/linkedinLogin.ts:26-51 | the steps return normally exactly when LoggedIn is reached; a run that does not return stops in a stage never before the starting one |
| LinkedInLogin.AdvanceStops | src/sites/linkedinLogin.ts:26-53 | a run that does not return reached its stopping stage normally and that stage's step threw; the run ends with that step's last call, so no later step is made |
| LinkedInLogin.LoginStopsAtFailure | src/sites/linkedinLogin.ts:26-56 | a login that rethrows ends with the throwing step's calls and then the failure line, for every stage |
| LinkedInLogin.NavigateTrace | src/sites/linkedinLogin.ts:27-28 | the announcement, then the goto with networkidle; it throws exactly when the goto does |
| LinkedInLogin.AwaitTrace | src/sites/linkedinLogin.ts:30-31 | the announcement, then the wait for the visible username field with timeout 10000 |
| LinkedInLogin.FillTrace | src/sites/linkedinLogin.ts:34-35 | a fill that returns is the click and then one successful keystroke and pause per character of the text |
| LinkedInLogin.EmailTrace | src/sites/linkedinLogin.ts:33-35 | the email step: announcement, click on the username field, the email's keystrokes |
| LinkedInLogin.PasswordTrace | src/sites/linkedinLogin.ts:37-41 | a delay in [800, 1200], the announcement, click on the password field, the password's keystrokes |
| LinkedInLogin.SubmitTrace | src/sites/linkedinLogin.ts:43-49 | a delay in [1000, 2000], the announcement, the navigation wait (15000) and the submit click; both are made, and the step succeeds only if both do |
| LinkedInLogin.FillFrame | src/sites/linkedinLogin.ts:34-41 | a click-and-type leaves the browser, the jar and the files alone and makes only page, sleep, console and info-log calls, whether or not it throws |
| LinkedInLogin.StepFrame | src/sites/linkedinLogin.ts:27-49 | a step leaves the browser, the jar and the files alone, and makes only page, sleep, console and info-log calls |
| LinkedInLogin.AdvanceFrame | src/sites/linkedinLogin.ts:26-49 | the same holds for any run of steps |
| LinkedInLogin.LoginFrame | src/sites/linkedinLogin.ts:25-57 | only page steps come before the last line; the last line is the success line exactly when the login returns, and the failure line exactly when it rethrows |
| LinkedInLogin.LoginCounts | src/sites/linkedinLogin.ts:25-57 | the login never checks or writes files, reads cookies, screenshots, launches or closes; when it rethrows, nothing was logged at the success level |
| LinkedInLogin.LoginStopsAtNavigation | src/sites/linkedinLogin.ts:26-56 | a throwing goto is followed only by the failure line, and the login rethrows |
| LinkedInLogin.LoginStopsAtUsernameWait | src/sites/linkedinLogin.ts:27-56 | a wait that times out means no click and no typing: only the failure line follows |
| LinkedInLogin.LoginSucceeds | src/sites/linkedinLogin.ts:25-51 | a login that returns made the full fixed sequence: the email's and the password's keystrokes, delays in their ranges, submit, success line |
| LinkedInLogin.Navigate | src/sites/linkedinLogin.ts:27-28 | the new state is the Navigating step |
| LinkedInLogin.AwaitUsername | src/sites/linkedinLogin.ts:30-31 | the new state is the AwaitingUsername step |
| LinkedInLogin.TypeEmail | src/sites/linkedinLogin.ts:33-35 | the new state is the TypingEmail step |
| LinkedInLogin.TypePassword | src/sites/linkedinLogin.ts:37-41 | the new state is the TypingPassword step |
| LinkedInLogin.Fill | src/sites/linkedinLogin.ts:34-35 | the new state is FillStep: click, and type only if the click returned |
| LinkedInLogin.Submit | src/sites/linkedinLogin.ts:43-49 | the new state is the Submitting step |
| LinkedInLogin.OpenForm | src/sites/linkedinLogin.ts:27-31 | after the first two steps the run continues from TypingEmail, or it stopped in the stage returned |
| LinkedInLogin.FillForm | src/sites/linkedinLogin.ts:33-49 | the last three steps end as Advance from TypingEmail says |
| LinkedInLogin.Login | src/sites/linkedinLogin.ts:25-57 | the login's new state, outcome and stopping stage are LoginSpec of the old state |

## Left out

- The logger (`src/core/logger.ts`) is a log line `(level, message)` in the trace. Console output, colours and the file append are not modelled.
- Argument parsing (`src/core/cli.ts`) is not modelled. The site is an arbitrary string: the `choices: ['linkedin']` restriction and `demandOption` are not enforced, so the warning branch for other keys stays reachable.
- Browser launch (`src/core/browserManager.ts`) is one `Launch` call that may throw and that opens a browser with an empty jar and page. Its own log lines and its three separate Playwright calls are not modelled.
- Configuration (`src/core/config.ts`) is inlined as the two settings `"sessions/"` and `"screenshots/"`.
- Exceptions carry no message or stack. Log lines that interpolate `error.message` end at their fixed prefix, and the `error.stack || ''` line is the empty line.
- `Automation.RecoverSpec` omits the inner `catch` around the screenshot (`src/main.ts:36-38`). `captureErrorScreenshot` never throws (`ErrorHandler.CaptureSpec` always returns a world), so that catch is unreachable.
- `Math.random()` is a real in [0, 1) supplied by the oracle in draw order. `randomDelay` uses its floor formula as written. `Utils.DelayCoversRange` links it to the integer-offset view.
- Timers are a recorded `Sleep(ms)` call; no time passes.
- `new Date().toISOString()` is the timestamp parameter `ts` of the run.
- `Promise.all` in the submit step is made as two calls in a row, the navigation wait and then the click. Both are always made, and the step throws if either throws. Real concurrency is not modelled.
- JSON is the identity on an opaque cookie sequence: `JSON.stringify` writes `CookieJson(cookies)`, and `JSON.parse` accepts only that.
- Paths are plain segments. `path.join` and `path.dirname` are modelled without "." or ".." segments, repeated separators or normalisation.
- NodePath.JoinInjective and SessionManager.SessionFileInjective are stated only for names without '/' (JoinInjective also excludes "." and ".."). Node's `path.join` normalises such names, so two different keys can share one file in the program, for example "a/../linkedin" and "linkedin".
- `mkdirSync(..., { recursive: true })` creates one directory and does not create missing parents. Calling it on an existing directory succeeds, as Node's recursive mkdir does. It fails when a file is at the path.
- `Automation.Lower`: `String.prototype.toLowerCase` is modelled on ASCII letters only. Unicode case mapping is not modelled.
- `context.addCookies` appends the cookies to the jar. Playwright's replacement of cookies with the same name, domain and path is not modelled.
- Page behaviour (DOM, network, what a goto or click does) is not modelled. Only the calls and whether they throw are recorded, plus the characters typed into each field. A goto clears the fields.
- `dotenv` is not modelled. The login module's credentials are an input, `LinkedInLogin.LoadCredentials` of the two environment variables.

## Behaviour of the code worth noting

- `randomDelay` does not clamp `max < min`: the delay then lies in (max, min] (`Utils.DelayNotClamped`).
- The screenshot label is used verbatim; only the timestamp is cleaned (`ErrorHandler.FileNameLayout`).
- `typeWithDelay` accepts empty text and types nothing; it checks neither the text nor the selector.
- `loginToLinkedIn` and `typeWithDelay` rethrow the error they caught unchanged.
- A failed run attempts at most one screenshot, and none when the directory cannot be made (`ErrorHandler.CaptureCounts`, `Automation.RecoverCalls`).
- The login's error line carries only the error's message; the failing stage is the `stage` result of `LinkedInLogin.Login`.
- The session directory falls back to "sessions" on a missing or empty setting (`||`); the screenshot directory falls back only on a missing one (`??`).
