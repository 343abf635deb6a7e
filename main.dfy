/**
 * The script's top-level run: launch the browser, then, inside a
 * try/catch/finally, load the site's session, dispatch on the site key, save
 * the session and log the success; on an exception log it and capture a
 * screenshot; finally close the browser.
 */
module Automation {
  import opened Environment
  import opened NodePath
  import SessionManager
  import ErrorHandler
  import LinkedInLogin

  /** String.prototype.toLowerCase on ASCII letters. */
  function LowerChar(c: char): char {
    if 'A' <= c <= 'Z' then (c as int + 32) as char else c
  }

  function Lower(s: string): (r: string)
    ensures |r| == |s|
    ensures forall i :: 0 <= i < |s| ==> r[i] == LowerChar(s[i])
  {
    if s == [] then [] else [LowerChar(s[0])] + Lower(s[1..])
  }

  /** Lowering a key that is already lowered changes nothing. */
  lemma LowerIdempotent(s: string)
    ensures Lower(Lower(s)) == Lower(s)
  {
    assert forall i :: 0 <= i < |s| ==> LowerChar(LowerChar(s[i])) == LowerChar(s[i]);
  }

  /** A lowered key has no upper-case ASCII letter left in it. */
  lemma LowerHasNoCapitals(s: string)
    ensures forall i :: 0 <= i < |Lower(s)| ==> !('A' <= Lower(s)[i] <= 'Z')
  {
  }

  const LinkedInSite := "linkedin"
  const CompletedMessage := "Automation completed successfully."
  const FailedMessage := "Automation failed: "
  /** error.stack || '': the stack line, whose text is not modelled. */
  const StackLine := ""
  const ClosedMessage := "Browser closed."

  function StartingMessage(site: string): string {
    "Starting automation for: " + site
  }

  function NoAutomationMessage(site: string): string {
    "No automation implemented for site: " + site
  }

  /**
   * How a run ended: whether the browser was launched, whether the try body
   * threw (so the catch block ran), and whether an exception escaped the
   * script (from the launch, or from close in the finally block).
   */
  datatype RunResult = RunResult(w: World, launched: bool, threw: bool, escaped: bool)

  /** The site dispatch: the LinkedIn login for "linkedin", a warning for any other key. */
  function Dispatch(w: World, o: Oracle, cred: LinkedInLogin.Credentials, site: string): (r: Outcome)
    ensures Extends(w, r.w)
  {
    if site == LinkedInSite then
      var s := LinkedInLogin.LoginSpec(w, o, cred);
      Outcome(s.w, s.ok)
    else Outcome(LogAt(w, Warn, NoAutomationMessage(site)), true)
  }

  /** The try body: load, dispatch, and only when the dispatch returned, save and the success line. */
  function BodySpec(w: World, o: Oracle, cred: LinkedInLogin.Credentials, site: string, path: string): (r: Outcome)
    ensures Extends(w, r.w)
  {
    var l := SessionManager.LoadSpec(w, o, site, path);
    var d := Dispatch(l, o, cred, site);
    if !d.ok then d
    else
      var v := SessionManager.SaveSpec(d.w, o, site, path);
      Outcome(LogAt(v, Success, CompletedMessage), true)
  }

  /** The catch block: the two error lines, then the screenshot named after the site. */
  function RecoverSpec(w: World, o: Oracle, site: string, dir: string, ts: string): (r: World)
    ensures Extends(w, r)
  {
    var f := LogAt(LogAt(w, Error, FailedMessage), Error, StackLine);
    ErrorHandler.CaptureSpec(f, o, dir, site, ts)
  }

  /** The finally block: close the browser, and log it when close returned. */
  function FinallySpec(w: World, o: Oracle, threw: bool): (r: RunResult)
    ensures Extends(w, r.w)
  {
    var x := Apply(w, o, Close);
    RunResult(if x.ok then LogAt(x.w, Info, ClosedMessage) else x.w, true, threw, !x.ok)
  }

  /** Everything after a launch that returned, for a given session file and screenshot directory. */
  function AfterLaunch(w: World, o: Oracle, cred: LinkedInLogin.Credentials, site: string,
                       path: string, dir: string, ts: string): (r: RunResult)
    ensures Extends(w, r.w)
  {
    var s := LogAt(w, Info, StartingMessage(site));
    var b := BodySpec(s, o, cred, site, path);
    var c := if b.ok then b.w else RecoverSpec(b.w, o, site, dir, ts);
    FinallySpec(c, o, !b.ok)
  }

  /**
   * The whole script for site argument arg at time ts. Without credentials
   * the import of the login module throws before anything runs; a launch
   * that throws escapes before the try.
   */
  function RunSpec(w: World, o: Oracle, cred: Option<LinkedInLogin.Credentials>, arg: string, ts: string): (r: RunResult)
    ensures Extends(w, r.w)
  {
    if cred.None? then RunResult(w, false, false, true)
    else
      var l := Apply(w, o, Launch);
      if !l.ok then RunResult(l.w, false, false, true)
      else
        var site := Lower(arg);
        AfterLaunch(l.w, o, cred.value, site, SessionManager.SessionFilePath(site),
                    ErrorHandler.ScreenshotDir(ErrorHandler.ScreenshotPathSetting), ts)
  }

  // ---------------------------------------------------------------------------
  // Counting the calls a run makes

  /** How often a trace launches, closes, checks for a file, reads the cookies, takes a screenshot and writes a file. */
  datatype Calls = Calls(launches: nat, closes: nat, checks: nat, cookieReads: nat, shots: nat, writes: nat)

  function CallsOf(e: seq<Event>): Calls {
    Calls(Count(e, KLaunch), Count(e, KClose), Count(e, KExists), Count(e, KCookies),
          Count(e, KScreenshot), Count(e, KWriteFile))
  }

  function Plus(a: Calls, b: Calls): Calls {
    Calls(a.launches + b.launches, a.closes + b.closes, a.checks + b.checks,
          a.cookieReads + b.cookieReads, a.shots + b.shots, a.writes + b.writes)
  }

  /** The calls of two traces one after the other add up. */
  lemma CallsAppend(a: seq<Event>, b: seq<Event>)
    ensures CallsOf(a + b) == Plus(CallsOf(a), CallsOf(b))
  {
    CountAppend(a, b, KLaunch);
    CountAppend(a, b, KClose);
    CountAppend(a, b, KExists);
    CountAppend(a, b, KCookies);
    CountAppend(a, b, KScreenshot);
    CountAppend(a, b, KWriteFile);
  }

  /** A log line is none of the counted calls. */
  lemma LogCalls(e: Event)
    requires e.op.Log?
    ensures CallsOf([e]) == Calls(0, 0, 0, 0, 0, 0)
  {
    CountSingle(e, KLaunch);
    CountSingle(e, KClose);
    CountSingle(e, KExists);
    CountSingle(e, KCookies);
    CountSingle(e, KScreenshot);
    CountSingle(e, KWriteFile);
  }

  /** One call of a counted kind. */
  lemma CloseCalls(ok: bool)
    ensures CallsOf([Event(Close, ok)]) == Calls(0, 1, 0, 0, 0, 0)
  {
    CountSingle(Event(Close, ok), KLaunch);
    CountSingle(Event(Close, ok), KClose);
    CountSingle(Event(Close, ok), KExists);
    CountSingle(Event(Close, ok), KCookies);
    CountSingle(Event(Close, ok), KScreenshot);
    CountSingle(Event(Close, ok), KWriteFile);
  }

  lemma LaunchCalls()
    ensures CallsOf([Event(Launch, true)]) == Calls(1, 0, 0, 0, 0, 0)
  {
    CountSingle(Event(Launch, true), KLaunch);
    CountSingle(Event(Launch, true), KClose);
    CountSingle(Event(Launch, true), KExists);
    CountSingle(Event(Launch, true), KCookies);
    CountSingle(Event(Launch, true), KScreenshot);
    CountSingle(Event(Launch, true), KWriteFile);
  }

  // ---------------------------------------------------------------------------
  // The parts of a run

  /**
   * Only the login can make the body throw: the dispatch returns normally
   * for every key but "linkedin", and for "linkedin" exactly when the login
   * does. Any other key logs the warning and nothing else.
   */
  lemma DispatchOutcome(w: World, o: Oracle, cred: LinkedInLogin.Credentials, site: string)
    ensures var r := Dispatch(w, o, cred, site);
            (!r.ok <==> site == LinkedInSite && !LinkedInLogin.LoginSpec(w, o, cred).ok) &&
            (site != LinkedInSite ==> Since(w, r.w) == [Event(Log(Warn, NoAutomationMessage(site)), true)])
  {
  }

  /** The dispatch makes none of the counted calls, and logs no success when it throws. */
  lemma DispatchCalls(w: World, o: Oracle, cred: LinkedInLogin.Credentials, site: string)
    ensures var r := Dispatch(w, o, cred, site);
            CallsOf(Since(w, r.w)) == Calls(0, 0, 0, 0, 0, 0) && (!r.ok ==> NoSuccessLog(Since(w, r.w)))
  {
    var r := Dispatch(w, o, cred, site);
    if site == LinkedInSite {
      LinkedInLogin.LoginCounts(w, o, cred);
    } else {
      assert Since(w, r.w) == [Event(Log(Warn, NoAutomationMessage(site)), true)];
      LogCalls(Event(Log(Warn, NoAutomationMessage(site)), true));
    }
  }

  /**
   * The body's trace is the load, then the dispatch, then (only when the
   * dispatch returned) the save and the success line.
   */
  lemma BodyLayout(w: World, o: Oracle, cred: LinkedInLogin.Credentials, site: string, path: string)
    returns (load: seq<Event>, dispatch: seq<Event>, save: seq<Event>, rest: seq<Event>)
    ensures var l := SessionManager.LoadSpec(w, o, site, path);
            var d := Dispatch(l, o, cred, site);
            var b := BodySpec(w, o, cred, site, path);
            load == Since(w, l) && dispatch == Since(l, d.w) && b.ok == d.ok &&
            (b.ok ==> save == Since(d.w, SessionManager.SaveSpec(d.w, o, site, path)) &&
                      Since(w, b.w) == load + dispatch + save + [Event(Log(Success, CompletedMessage), true)]) &&
            (!b.ok ==> Since(w, b.w) == load + dispatch) &&
            Since(w, b.w) == load + rest
  {
    var l := SessionManager.LoadSpec(w, o, site, path);
    var d := Dispatch(l, o, cred, site);
    var b := BodySpec(w, o, cred, site, path);
    load := Since(w, l);
    dispatch := Since(l, d.w);
    SinceStep(w, l, d.w);
    if d.ok {
      var v := SessionManager.SaveSpec(d.w, o, site, path);
      save := Since(d.w, v);
      SinceStep(w, d.w, v);
      SinceStep(w, v, b.w);
      rest := dispatch + save + [Event(Log(Success, CompletedMessage), true)];
    } else {
      save := [];
      rest := dispatch;
    }
  }

  /**
   * The body checks for the session file once, reads the cookies once
   * exactly when it returns, never launches, closes or takes a screenshot,
   * and writes nothing when it throws; when it throws nothing was logged at
   * the success level, and when it returns its last line is the success line.
   */
  lemma BodyCalls(w: World, o: Oracle, cred: LinkedInLogin.Credentials, site: string, path: string)
    requires |path| > 1
    ensures var b := BodySpec(w, o, cred, site, path);
            var e := Since(w, b.w);
            var n := CallsOf(e);
            n.launches == 0 && n.closes == 0 && n.checks == 1 && n.shots == 0 &&
            n.cookieReads == (if b.ok then 1 else 0) &&
            (!b.ok ==> n.writes == 0 && NoSuccessLog(e)) &&
            (b.ok ==> |e| > 0 && e[|e| - 1] == Event(Log(Success, CompletedMessage), true))
  {
    var load, dispatch, save, rest := BodyLayout(w, o, cred, site, path);
    var l := SessionManager.LoadSpec(w, o, site, path);
    var d := Dispatch(l, o, cred, site);
    SessionManager.LoadFootprint(w, o, site, path);
    DispatchCalls(l, o, cred, site);
    CallsAppend(load, dispatch);
    if d.ok {
      SessionManager.SaveFootprint(d.w, o, site, path);
      LogCalls(Event(Log(Success, CompletedMessage), true));
      CallsAppend(load + dispatch, save);
      CallsAppend(load + dispatch + save, [Event(Log(Success, CompletedMessage), true)]);
    } else {
      NoLoadSuccess(load);
      NoSuccessAppend(load, dispatch);
    }
  }

  /** The session load logs nothing at the success level. */
  lemma NoLoadSuccess(e: seq<Event>)
    requires forall x :: x in e ==> SessionManager.LoadOp(x.op)
    ensures NoSuccessLog(e)
  {
  }

  lemma NoSuccessAppend(a: seq<Event>, b: seq<Event>)
    requires NoSuccessLog(a) && NoSuccessLog(b)
    ensures NoSuccessLog(a + b)
  {
    assert forall x :: x in a + b ==> x in a || x in b;
  }

  /** The catch block checks for the directory once, takes at most one screenshot, and logs no success. */
  lemma RecoverCalls(w: World, o: Oracle, site: string, dir: string, ts: string)
    ensures var e := Since(w, RecoverSpec(w, o, site, dir, ts));
            var n := CallsOf(e);
            n.launches == 0 && n.closes == 0 && n.checks == 1 && n.cookieReads == 0 &&
            n.shots <= 1 && n.writes == 0 && NoSuccessLog(e)
  {
    var f := LogAt(LogAt(w, Error, FailedMessage), Error, StackLine);
    var r := RecoverSpec(w, o, site, dir, ts);
    ErrorHandler.CaptureCounts(f, o, dir, site, ts);
    SinceStep(w, f, r);
    RecoverLines(w);
    RecoverTotal(Since(w, f), Since(f, r));
  }

  lemma RecoverLines(w: World)
    ensures var f := LogAt(LogAt(w, Error, FailedMessage), Error, StackLine);
            Extends(w, f) && |Since(w, f)| == 2 &&
            Since(w, f)[0].op.Log? && Since(w, f)[0].op.level == Error &&
            Since(w, f)[1].op.Log? && Since(w, f)[1].op.level == Error
  {
  }

  lemma RecoverTotal(lines: seq<Event>, capture: seq<Event>)
    requires |lines| == 2
    requires lines[0].op.Log? && lines[0].op.level == Error && lines[1].op.Log? && lines[1].op.level == Error
    requires var n := CallsOf(capture);
             n.launches == 0 && n.closes == 0 && n.checks == 1 && n.cookieReads == 0 &&
             n.shots <= 1 && n.writes == 0 && NoSuccessLog(capture)
    ensures var n := CallsOf(lines + capture);
            n.launches == 0 && n.closes == 0 && n.checks == 1 && n.cookieReads == 0 &&
            n.shots <= 1 && n.writes == 0 && NoSuccessLog(lines + capture)
  {
    assert lines == [lines[0], lines[1]];
    ErrorLines(lines[0], lines[1]);
    CallsAppend(lines, capture);
    NoSuccessAppend(lines, capture);
  }

  lemma ErrorLines(a: Event, b: Event)
    requires a.op.Log? && a.op.level == Error && b.op.Log? && b.op.level == Error
    ensures CallsOf([a, b]) == Calls(0, 0, 0, 0, 0, 0) && NoSuccessLog([a, b])
  {
    Count2(a, b, KLaunch);
    Count2(a, b, KClose);
    Count2(a, b, KExists);
    Count2(a, b, KCookies);
    Count2(a, b, KScreenshot);
    Count2(a, b, KWriteFile);
  }

  /**
   * The finally block closes the browser exactly once, that call is the
   * last one the script makes, and "Browser closed." follows it exactly when
   * it returned; close throwing is what lets an exception escape.
   */
  lemma FinallyCalls(w: World, o: Oracle, threw: bool)
    ensures var r := FinallySpec(w, o, threw);
            var e := Since(w, r.w);
            CallsOf(e) == Calls(0, 1, 0, 0, 0, 0) && NoSuccessLog(e) && r.threw == threw && r.launched &&
            (r.escaped ==> e == [Event(Close, false)]) &&
            (!r.escaped ==> e == [Event(Close, true), Event(Log(Info, ClosedMessage), true)])
  {
    var x := Apply(w, o, Close);
    CloseCalls(x.ok);
    if x.ok {
      LogCalls(Event(Log(Info, ClosedMessage), true));
      CallsAppend([Event(Close, true)], [Event(Log(Info, ClosedMessage), true)]);
      assert [Event(Close, true), Event(Log(Info, ClosedMessage), true)]
          == [Event(Close, true)] + [Event(Log(Info, ClosedMessage), true)];
    }
  }

  // ---------------------------------------------------------------------------
  // The guarantees of a run

  /** The trace after the launch: the start line, the body, the catch block only when the body threw, the finally block. */
  lemma AfterLaunchLayout(w: World, o: Oracle, cred: LinkedInLogin.Credentials, site: string,
                          path: string, dir: string, ts: string)
    returns (body: seq<Event>, recovery: seq<Event>, last: seq<Event>)
    ensures var s := LogAt(w, Info, StartingMessage(site));
            var b := BodySpec(s, o, cred, site, path);
            var c := if b.ok then b.w else RecoverSpec(b.w, o, site, dir, ts);
            var r := AfterLaunch(w, o, cred, site, path, dir, ts);
            body == Since(s, b.w) && recovery == Since(b.w, c) && last == Since(c, r.w) &&
            r.threw == !b.ok && (b.ok ==> recovery == []) &&
            Since(w, r.w) == [Event(Log(Info, StartingMessage(site)), true)] + body + recovery + last
  {
    var s := LogAt(w, Info, StartingMessage(site));
    var b := BodySpec(s, o, cred, site, path);
    var c := if b.ok then b.w else RecoverSpec(b.w, o, site, dir, ts);
    var r := AfterLaunch(w, o, cred, site, path, dir, ts);
    body := Since(s, b.w);
    recovery := Since(b.w, c);
    last := Since(c, r.w);
    SinceStep(w, s, b.w);
    SinceStep(w, b.w, c);
    SinceStep(w, c, r.w);
  }

  /**
   * After a launch that returned: the browser is closed exactly once and
   * never launched again; the screenshot is attempted (its directory
   * checked) only when the body threw, at most once; the cookies are read
   * for the save exactly when the body returned, and nothing is written when
   * it threw.
   */
  lemma AfterLaunchCalls(w: World, o: Oracle, cred: LinkedInLogin.Credentials, site: string,
                         path: string, dir: string, ts: string)
    requires |path| > 1
    ensures var r := AfterLaunch(w, o, cred, site, path, dir, ts);
            var n := CallsOf(Since(w, r.w));
            n.launches == 0 && n.closes == 1 &&
            n.checks == (if r.threw then 2 else 1) &&
            n.shots <= (if r.threw then 1 else 0) &&
            n.cookieReads == (if r.threw then 0 else 1) &&
            (r.threw ==> n.writes == 0)
  {
    var body, recovery, last := AfterLaunchLayout(w, o, cred, site, path, dir, ts);
    var s := LogAt(w, Info, StartingMessage(site));
    var b := BodySpec(s, o, cred, site, path);
    var c := if b.ok then b.w else RecoverSpec(b.w, o, site, dir, ts);
    BodyCalls(s, o, cred, site, path);
    if !b.ok {
      RecoverCalls(b.w, o, site, dir, ts);
    }
    FinallyCalls(c, o, !b.ok);
    LogCalls(Event(Log(Info, StartingMessage(site)), true));
    RunTotal([Event(Log(Info, StartingMessage(site)), true)], body, recovery, last, !b.ok);
  }

  /** The calls of a run after the launch, from those of its parts. */
  lemma RunTotal(start: seq<Event>, body: seq<Event>, recovery: seq<Event>, last: seq<Event>, threw: bool)
    requires CallsOf(start) == Calls(0, 0, 0, 0, 0, 0)
    requires var n := CallsOf(body);
             n.launches == 0 && n.closes == 0 && n.checks == 1 && n.shots == 0 &&
             n.cookieReads == (if threw then 0 else 1) && (threw ==> n.writes == 0)
    requires !threw ==> recovery == []
    requires threw ==> var n := CallsOf(recovery);
                       n.launches == 0 && n.closes == 0 && n.checks == 1 && n.cookieReads == 0 &&
                       n.shots <= 1 && n.writes == 0
    requires CallsOf(last) == Calls(0, 1, 0, 0, 0, 0)
    ensures var n := CallsOf(start + body + recovery + last);
            n.launches == 0 && n.closes == 1 &&
            n.checks == (if threw then 2 else 1) &&
            n.shots <= (if threw then 1 else 0) &&
            n.cookieReads == (if threw then 0 else 1) &&
            (threw ==> n.writes == 0)
  {
    SumCalls(start, body, recovery, last);
  }

  lemma SumCalls(a: seq<Event>, b: seq<Event>, c: seq<Event>, d: seq<Event>)
    ensures CallsOf(a + b + c + d) == Plus(Plus(Plus(CallsOf(a), CallsOf(b)), CallsOf(c)), CallsOf(d))
  {
    CallsAppend(a, b);
    CallsAppend(a + b, c);
    CallsAppend(a + b + c, d);
  }

  /**
   * The success line is logged exactly when the body returned: when it threw,
   * no line of the run is at the success level; when it returned, the
   * success line is in the trace.
   */
  lemma AfterLaunchSuccessLine(w: World, o: Oracle, cred: LinkedInLogin.Credentials, site: string,
                               path: string, dir: string, ts: string)
    requires |path| > 1
    ensures var r := AfterLaunch(w, o, cred, site, path, dir, ts);
            var e := Since(w, r.w);
            (r.threw ==> NoSuccessLog(e)) &&
            (!r.threw ==> Event(Log(Success, CompletedMessage), true) in e)
  {
    var body, recovery, last := AfterLaunchLayout(w, o, cred, site, path, dir, ts);
    var s := LogAt(w, Info, StartingMessage(site));
    var b := BodySpec(s, o, cred, site, path);
    var c := if b.ok then b.w else RecoverSpec(b.w, o, site, dir, ts);
    var start := [Event(Log(Info, StartingMessage(site)), true)];
    BodyCalls(s, o, cred, site, path);
    if !b.ok {
      RecoverCalls(b.w, o, site, dir, ts);
      FinallyCalls(c, o, true);
      NoSuccessAppend(start, body);
      NoSuccessAppend(start + body, recovery);
      NoSuccessAppend(start + body + recovery, last);
    } else {
      assert body[|body| - 1] in start + body + recovery + last by {
        assert (start + body + recovery + last)[|start| + |body| - 1] == body[|body| - 1];
      }
    }
  }

  /**
   * The session is loaded before anything else: right after the start line
   * the session file is checked, and the load's calls (file checks, reads,
   * cookie injection, non-success lines) run to the end of the load before
   * the dispatch begins.
   */
  lemma AfterLaunchLoadsFirst(w: World, o: Oracle, cred: LinkedInLogin.Credentials, site: string,
                              path: string, dir: string, ts: string)
    returns (load: seq<Event>, after: seq<Event>)
    ensures var s := LogAt(w, Info, StartingMessage(site));
            var l := SessionManager.LoadSpec(s, o, site, path);
            load == Since(s, l) && |load| > 0 && load[0] == Event(Exists(path), true) &&
            (forall x :: x in load ==> SessionManager.LoadOp(x.op)) &&
            Since(w, AfterLaunch(w, o, cred, site, path, dir, ts).w)
              == [Event(Log(Info, StartingMessage(site)), true)] + load + after
  {
    var body, recovery, last := AfterLaunchLayout(w, o, cred, site, path, dir, ts);
    var s := LogAt(w, Info, StartingMessage(site));
    var dispatch, save, rest;
    load, dispatch, save, rest := BodyLayout(s, o, cred, site, path);
    SessionManager.LoadFootprint(s, o, site, path);
    after := rest + recovery + last;
    Regroup([Event(Log(Info, StartingMessage(site)), true)], body, load, rest, recovery, last);
  }

  lemma Regroup(start: seq<Event>, body: seq<Event>, load: seq<Event>, rest: seq<Event>,
                recovery: seq<Event>, last: seq<Event>)
    requires body == load + rest
    ensures start + body + recovery + last == start + load + (rest + recovery + last)
  {
  }

  /**
   * A key other than "linkedin" never makes the body throw: the warning is
   * logged, the session saved, and the success line follows.
   */
  lemma AfterLaunchOtherSite(w: World, o: Oracle, cred: LinkedInLogin.Credentials, site: string,
                             path: string, dir: string, ts: string)
    requires site != LinkedInSite
    ensures var r := AfterLaunch(w, o, cred, site, path, dir, ts);
            !r.threw && Event(Log(Warn, NoAutomationMessage(site)), true) in Since(w, r.w)
  {
    var body, recovery, last := AfterLaunchLayout(w, o, cred, site, path, dir, ts);
    var s := LogAt(w, Info, StartingMessage(site));
    var load, dispatch, save, rest := BodyLayout(s, o, cred, site, path);
    var l := SessionManager.LoadSpec(s, o, site, path);
    DispatchOutcome(l, o, cred, site);
    var e := Since(w, AfterLaunch(w, o, cred, site, path, dir, ts).w);
    var start := [Event(Log(Info, StartingMessage(site)), true)];
    assert e[1 + |load|] == dispatch[0];
  }

  /**
   * When EMAIL or PASSWORD is unset or empty, the login module's check throws
   * on import and nothing runs, whatever the site argument.
   */
  lemma RunWithoutCredentials(w: World, o: Oracle, email: Option<string>, password: Option<string>,
                              arg: string, ts: string)
    requires email.None? || password.None? || email.value == "" || password.value == ""
    ensures var r := RunSpec(w, o, LinkedInLogin.LoadCredentials(email, password), arg, ts);
            r.w == w && !r.launched && r.escaped
  {
  }

  /** A launch that throws escapes before the try: nothing else is called, in particular no close and no screenshot. */
  lemma RunLaunchFails(w: World, o: Oracle, cred: LinkedInLogin.Credentials, arg: string, ts: string)
    requires |w.events| in o.faults
    ensures var r := RunSpec(w, o, Some(cred), arg, ts);
            Since(w, r.w) == [Event(Launch, false)] && !r.launched && r.escaped &&
            Count(Since(w, r.w), KClose) == 0 && Count(Since(w, r.w), KScreenshot) == 0
  {
    var l := Apply(w, o, Launch);
    assert !l.ok;
    assert RunSpec(w, o, Some(cred), arg, ts) == RunResult(l.w, false, false, true);
    CountSingle(Event(Launch, false), KClose);
    CountSingle(Event(Launch, false), KScreenshot);
  }

  /**
   * Whenever the launch returned: it is the first call and the only launch,
   * the browser is closed exactly once, the screenshot directory is checked
   * (after the session file's check) only when the body threw and at most
   * one screenshot is taken, the session is saved exactly when the body
   * returned and nothing is written when it threw.
   */
  lemma RunCalls(w: World, o: Oracle, cred: LinkedInLogin.Credentials, arg: string, ts: string)
    ensures var r := RunSpec(w, o, Some(cred), arg, ts);
            var e := Since(w, r.w);
            var n := CallsOf(e);
            r.launched ==>
              |e| > 0 && e[0] == Event(Launch, true) &&
              n.launches == 1 && n.closes == 1 &&
              n.checks == (if r.threw then 2 else 1) &&
              n.shots <= (if r.threw then 1 else 0) &&
              n.cookieReads == (if r.threw then 0 else 1) &&
              (r.threw ==> n.writes == 0)
  {
    var l := Apply(w, o, Launch);
    if l.ok {
      var site := Lower(arg);
      var path := SessionManager.SessionFilePath(site);
      var dir := ErrorHandler.ScreenshotDir(ErrorHandler.ScreenshotPathSetting);
      SessionManager.SessionFilePathLong(site);
      AfterLaunchCalls(l.w, o, cred, site, path, dir, ts);
      var r := AfterLaunch(l.w, o, cred, site, path, dir, ts);
      SinceStep(w, l.w, r.w);
      LaunchCalls();
      CallsAppend([Event(Launch, true)], Since(l.w, r.w));
    }
  }

  /** Only the LinkedIn login can make the body throw, and only a key that lowers to "linkedin" reaches it. */
  lemma RunThrowsOnlyInLogin(w: World, o: Oracle, cred: LinkedInLogin.Credentials, arg: string, ts: string)
    ensures var r := RunSpec(w, o, Some(cred), arg, ts);
            r.threw ==> r.launched && Lower(arg) == LinkedInSite
  {
    var l := Apply(w, o, Launch);
    if l.ok {
      var site := Lower(arg);
      if site != LinkedInSite {
        AfterLaunchOtherSite(l.w, o, cred, site, SessionManager.SessionFilePath(site),
                             ErrorHandler.ScreenshotDir(ErrorHandler.ScreenshotPathSetting), ts);
      }
    }
  }

  // ---------------------------------------------------------------------------
  // The script

  method Run(h: Host, cred: Option<LinkedInLogin.Credentials>, arg: string, ts: string)
    returns (launched: bool, threw: bool, escaped: bool)
    modifies h
    ensures var r := RunSpec(old(h.State()), h.oracle, cred, arg, ts);
            h.State() == r.w && launched == r.launched && threw == r.threw && escaped == r.escaped
  {
    if cred.None? {
      return false, false, true;
    }
    var up := h.Call(Launch);
    if !up {
      return false, false, true;
    }
    launched := true;
    var site := Lower(arg);
    h.Log(Info, StartingMessage(site));
    var ok := Body(h, cred.value, site);
    threw := !ok;
    if threw {
      Recover(h, site, ts);
    }
    var closed := h.Call(Close);
    if closed {
      h.Log(Info, ClosedMessage);
    }
    escaped := !closed;
  }

  /** The try body. */
  method Body(h: Host, cred: LinkedInLogin.Credentials, site: string) returns (ok: bool)
    modifies h
    ensures var b := BodySpec(old(h.State()), h.oracle, cred, site, SessionManager.SessionFilePath(site));
            h.State() == b.w && ok == b.ok
  {
    SessionManager.LoadSession(h, site);
    if site == LinkedInSite {
      var stage;
      ok, stage := LinkedInLogin.Login(h, cred);
    } else {
      h.Log(Warn, NoAutomationMessage(site));
      ok := true;
    }
    if ok {
      SessionManager.SaveSession(h, site);
      h.Log(Success, CompletedMessage);
    }
  }

  /** The catch block. */
  method Recover(h: Host, site: string, ts: string)
    modifies h
    ensures h.State() == RecoverSpec(old(h.State()), h.oracle, site,
                                     ErrorHandler.ScreenshotDir(ErrorHandler.ScreenshotPathSetting), ts)
  {
    h.Log(Error, FailedMessage);
    h.Log(Error, StackLine);
    ErrorHandler.CaptureErrorScreenshot(h, site, ts);
  }
}
