/**
 * captureErrorScreenshot: a best-effort full-page capture into the screenshot
 * directory, named after a label and the time. It never throws.
 */
module ErrorHandler {
  import opened Environment
  import opened NodePath

  /** config.screenshotPath. */
  const ScreenshotPathSetting: Option<string> := Some("screenshots/")

  /** config.screenshotPath ?? 'screenshots': only a missing setting falls back; an empty one is kept. */
  function ScreenshotDir(setting: Option<string>): (d: string)
    ensures setting.Some? ==> d == setting.value
    ensures setting.None? ==> d == "screenshots"
  {
    match setting
    case Some(s) => s
    case None => "screenshots"
  }

  /** One character of timestamp.replace(/[:.]/g, '-'). */
  function SafeChar(c: char): char {
    if c == ':' || c == '.' then '-' else c
  }

  /** timestamp.replace(/[:.]/g, '-'): every ':' and '.' becomes '-', everything else stays in place. */
  function Sanitize(ts: string): (r: string)
    ensures |r| == |ts|
    ensures forall i :: 0 <= i < |ts| ==> r[i] == SafeChar(ts[i])
    ensures ':' !in r && '.' !in r
  {
    if ts == [] then [] else [SafeChar(ts[0])] + Sanitize(ts[1..])
  }

  /** Replacing twice is replacing once. */
  lemma SanitizeIdempotent(ts: string)
    ensures Sanitize(Sanitize(ts)) == Sanitize(ts)
  {
    var s := Sanitize(ts);
    assert forall i :: 0 <= i < |s| ==> Sanitize(s)[i] == SafeChar(s[i]) == s[i];
  }

  /** A timestamp without ':' or '.' is kept as it is. */
  lemma SanitizeKeepsSafe(ts: string)
    requires ':' !in ts && '.' !in ts
    ensures Sanitize(ts) == ts
  {
    assert forall i :: 0 <= i < |ts| ==> Sanitize(ts)[i] == SafeChar(ts[i]) == ts[i];
  }

  /** `${name}-${timestamp}.png`, the name taken as it is. */
  function ScreenshotFileName(name: string, ts: string): string {
    name + "-" + Sanitize(ts) + ".png"
  }

  /**
   * The file name is the label verbatim (no character of it is replaced, not
   * even ':', '.' or '/'), a '-', the cleaned timestamp and ".png".
   */
  lemma FileNameLayout(name: string, ts: string)
    ensures var f := ScreenshotFileName(name, ts);
            |f| == |name| + |ts| + 5 &&
            f[..|name|] == name && f[|name|] == '-' &&
            f[|name| + 1..|name| + 1 + |ts|] == Sanitize(ts) &&
            f[|name| + 1 + |ts|..] == ".png"
  {
    var f := ScreenshotFileName(name, ts);
    assert f == name + "-" + Sanitize(ts) + ".png";
  }

  /** With one timestamp, distinct labels give distinct file names. */
  lemma FileNameInjective(a: string, b: string, ts: string)
    requires ScreenshotFileName(a, ts) == ScreenshotFileName(b, ts)
    ensures a == b
  {
    FileNameLayout(a, ts);
    FileNameLayout(b, ts);
  }

  function SavedMessage(path: string): string {
    "\U{1F4F8} Screenshot saved: " + path
  }

  function FailedMessage(): string {
    "\U{274C} Failed to capture screenshot: "
  }

  /**
   * captureErrorScreenshot(page, name) into dir at time ts: create dir if it
   * is missing, then take a full-page screenshot at join(dir, file name) and
   * log it; a call that throws is logged instead.
   */
  function CaptureSpec(w: World, o: Oracle, dir: string, name: string, ts: string): (r: World)
    ensures Extends(w, r)
    ensures r.open == w.open && r.jar == w.jar && r.fields == w.fields && r.drawn == w.drawn
  {
    var x := Note(w, Exists(dir));
    var m := if Present(w, dir) then Outcome(x, true) else Apply(x, o, Mkdir(dir));
    if !m.ok then LogAt(m.w, Error, FailedMessage())
    else
      var path := Join(dir, ScreenshotFileName(name, ts));
      var s := Apply(m.w, o, Screenshot(path, true));
      if !s.ok then LogAt(s.w, Error, FailedMessage())
      else LogAt(s.w, Info, SavedMessage(path))
  }

  /** The directory is there after the existence check, or mkdir made it. */
  predicate DirReady(w: World, o: Oracle, dir: string) {
    Present(w, dir) || (|w.events| + 1 !in o.faults && dir != "" && dir !in w.files)
  }

  /** The screenshot call goes through (it comes after mkdir when the directory was missing). */
  predicate ShotTaken(w: World, o: Oracle, dir: string, path: string) {
    if Present(w, dir) then |w.events| + 1 !in o.faults && path !in w.dirs
    else DirReady(w, o, dir) && |w.events| + 2 !in o.faults && path !in w.dirs + {dir}
  }

  /** The log line that ends a capture: where the file went, or the error. */
  function CaptureLog(taken: bool, path: string): Event {
    if taken then Event(Log(Info, SavedMessage(path)), true) else Event(Log(Error, FailedMessage()), true)
  }

  /**
   * With the directory present: the existence check, no mkdir, the full-page
   * screenshot at join(dir, file name), and the log line saying whether it
   * went through. Only the screenshot writes a file.
   */
  lemma CaptureIntoPresentDir(w: World, o: Oracle, dir: string, name: string, ts: string) returns (e: seq<Event>)
    requires Present(w, dir)
    ensures var path := Join(dir, ScreenshotFileName(name, ts));
            var r := CaptureSpec(w, o, dir, name, ts);
            var taken := ShotTaken(w, o, dir, path);
            Since(w, r) == e ==
              [Event(Exists(dir), true), Event(Screenshot(path, true), taken), CaptureLog(taken, path)] &&
            r.files == (if taken then w.files[path := Png(true)] else w.files) &&
            r.dirs == w.dirs
  {
    var path := Join(dir, ScreenshotFileName(name, ts));
    var x := Note(w, Exists(dir));
    var s := Apply(x, o, Screenshot(path, true));
    assert s.w.events == w.events + [Event(Exists(dir), true), Event(Screenshot(path, true), s.ok)];
    e := [Event(Exists(dir), true), Event(Screenshot(path, true), s.ok), CaptureLog(s.ok, path)];
  }

  /** With the directory missing and mkdir going through: the same, with mkdir before the screenshot. */
  lemma CaptureIntoNewDir(w: World, o: Oracle, dir: string, name: string, ts: string) returns (e: seq<Event>)
    requires !Present(w, dir) && DirReady(w, o, dir)
    ensures var path := Join(dir, ScreenshotFileName(name, ts));
            var r := CaptureSpec(w, o, dir, name, ts);
            var taken := ShotTaken(w, o, dir, path);
            Since(w, r) == e ==
              [Event(Exists(dir), true), Event(Mkdir(dir), true), Event(Screenshot(path, true), taken),
               CaptureLog(taken, path)] &&
            r.files == (if taken then w.files[path := Png(true)] else w.files) &&
            r.dirs == w.dirs + {dir}
  {
    var path := Join(dir, ScreenshotFileName(name, ts));
    var x := Note(w, Exists(dir));
    var m := Apply(x, o, Mkdir(dir));
    assert m.w == x.(events := x.events + [Event(Mkdir(dir), true)], dirs := w.dirs + {dir});
    var s := Apply(m.w, o, Screenshot(path, true));
    assert s.w.events == w.events + [Event(Exists(dir), true), Event(Mkdir(dir), true), Event(Screenshot(path, true), s.ok)];
    e := [Event(Exists(dir), true), Event(Mkdir(dir), true), Event(Screenshot(path, true), s.ok), CaptureLog(s.ok, path)];
  }

  /** With the directory missing and mkdir throwing: no screenshot is attempted, and the error is logged. */
  lemma CaptureWithoutDir(w: World, o: Oracle, dir: string, name: string, ts: string) returns (e: seq<Event>)
    requires !DirReady(w, o, dir)
    ensures var r := CaptureSpec(w, o, dir, name, ts);
            Since(w, r) == e ==
              [Event(Exists(dir), true), Event(Mkdir(dir), false), CaptureLog(false, "")] &&
            r.files == w.files && r.dirs == w.dirs
  {
    e := [Event(Exists(dir), true), Event(Mkdir(dir), false), CaptureLog(false, "")];
  }

  /** What the counted kinds of events add up to in each of the three traces. */
  predicate Tally(e: seq<Event>, mkdirs: nat, shots: nat) {
    Count(e, KMkdir) == mkdirs && Count(e, KScreenshot) == shots &&
    Count(e, KExists) == 1 && Count(e, KLaunch) == 0 &&
    Count(e, KClose) == 0 && Count(e, KCookies) == 0 && Count(e, KWriteFile) == 0
  }

  lemma TallyOfPresentDir(dir: string, path: string, taken: bool, log: Event)
    requires log.op.Log? && log.op.level != Success
    ensures Tally([Event(Exists(dir), true), Event(Screenshot(path, true), taken), log], 0, 1)
    ensures NoSuccessLog([Event(Exists(dir), true), Event(Screenshot(path, true), taken), log])
  {
    var e := [Event(Exists(dir), true), Event(Screenshot(path, true), taken), log];
    Count3(e[0], e[1], e[2], KMkdir);
    Count3(e[0], e[1], e[2], KScreenshot);
    Count3(e[0], e[1], e[2], KClose);
    Count3(e[0], e[1], e[2], KCookies);
    Count3(e[0], e[1], e[2], KWriteFile);
    Count3(e[0], e[1], e[2], KExists);
    Count3(e[0], e[1], e[2], KLaunch);
  }

  lemma TallyOfNewDir(dir: string, path: string, taken: bool, log: Event)
    requires log.op.Log? && log.op.level != Success
    ensures Tally([Event(Exists(dir), true), Event(Mkdir(dir), true), Event(Screenshot(path, true), taken), log], 1, 1)
    ensures NoSuccessLog([Event(Exists(dir), true), Event(Mkdir(dir), true), Event(Screenshot(path, true), taken), log])
  {
    var e := [Event(Exists(dir), true), Event(Mkdir(dir), true), Event(Screenshot(path, true), taken), log];
    Count4(e[0], e[1], e[2], e[3], KMkdir);
    Count4(e[0], e[1], e[2], e[3], KScreenshot);
    Count4(e[0], e[1], e[2], e[3], KClose);
    Count4(e[0], e[1], e[2], e[3], KCookies);
    Count4(e[0], e[1], e[2], e[3], KWriteFile);
    Count4(e[0], e[1], e[2], e[3], KExists);
    Count4(e[0], e[1], e[2], e[3], KLaunch);
  }

  lemma TallyWithoutDir(dir: string, log: Event)
    requires log.op.Log? && log.op.level != Success
    ensures Tally([Event(Exists(dir), true), Event(Mkdir(dir), false), log], 1, 0)
    ensures NoSuccessLog([Event(Exists(dir), true), Event(Mkdir(dir), false), log])
  {
    var e := [Event(Exists(dir), true), Event(Mkdir(dir), false), log];
    Count3(e[0], e[1], e[2], KMkdir);
    Count3(e[0], e[1], e[2], KScreenshot);
    Count3(e[0], e[1], e[2], KClose);
    Count3(e[0], e[1], e[2], KCookies);
    Count3(e[0], e[1], e[2], KWriteFile);
    Count3(e[0], e[1], e[2], KExists);
    Count3(e[0], e[1], e[2], KLaunch);
  }

  /**
   * The directory is checked once; mkdir is called exactly when it is
   * missing; the screenshot is attempted once when the directory is there and
   * never otherwise; nothing else the run counts (launching or closing the
   * browser, reading cookies, writing files) happens.
   */
  lemma CaptureCounts(w: World, o: Oracle, dir: string, name: string, ts: string)
    ensures Tally(Since(w, CaptureSpec(w, o, dir, name, ts)),
                  if Present(w, dir) then 0 else 1, if DirReady(w, o, dir) then 1 else 0)
    ensures NoSuccessLog(Since(w, CaptureSpec(w, o, dir, name, ts)))
  {
    var path := Join(dir, ScreenshotFileName(name, ts));
    if Present(w, dir) {
      var e := CaptureIntoPresentDir(w, o, dir, name, ts);
      TallyOfPresentDir(dir, path, ShotTaken(w, o, dir, path), e[2]);
    } else if DirReady(w, o, dir) {
      var e := CaptureIntoNewDir(w, o, dir, name, ts);
      TallyOfNewDir(dir, path, ShotTaken(w, o, dir, path), e[3]);
    } else {
      var e := CaptureWithoutDir(w, o, dir, name, ts);
      TallyWithoutDir(dir, e[2]);
    }
  }

  /** Only the error-free path logs the saved file; every failure ends on the error line. */
  lemma CaptureLogsOutcome(w: World, o: Oracle, dir: string, name: string, ts: string)
    ensures var path := Join(dir, ScreenshotFileName(name, ts));
            var e := Since(w, CaptureSpec(w, o, dir, name, ts));
            |e| > 0 &&
            (ShotTaken(w, o, dir, path) <==> e[|e| - 1] == Event(Log(Info, SavedMessage(path)), true)) &&
            (!ShotTaken(w, o, dir, path) <==> e[|e| - 1] == Event(Log(Error, FailedMessage()), true))
  {
    var e: seq<Event>;
    if Present(w, dir) {
      e := CaptureIntoPresentDir(w, o, dir, name, ts);
    } else if DirReady(w, o, dir) {
      e := CaptureIntoNewDir(w, o, dir, name, ts);
    } else {
      e := CaptureWithoutDir(w, o, dir, name, ts);
    }
  }

  method CaptureErrorScreenshot(h: Host, name: string, ts: string)
    modifies h
    ensures h.State() == CaptureSpec(old(h.State()), h.oracle, ScreenshotDir(ScreenshotPathSetting), name, ts)
  {
    var dir := ScreenshotDir(ScreenshotPathSetting);
    var present := h.Exists(dir);
    if !present {
      var made := h.Call(Mkdir(dir));
      if !made {
        h.Log(Error, FailedMessage());
        return;
      }
    }
    var path := Join(dir, ScreenshotFileName(name, ts));
    var taken := h.Call(Screenshot(path, true));
    if !taken {
      h.Log(Error, FailedMessage());
      return;
    }
    h.Log(Info, SavedMessage(path));
  }
}
