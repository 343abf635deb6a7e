/**
 * loginToLinkedIn: a fixed sequence of page steps (open the login page, wait
 * for the username field, type the email, type the password, submit), each
 * stage entered only when the one before it returned normally. The first
 * step that throws ends the sequence; the failure is logged and rethrown.
 */
module LinkedInLogin {
  import opened Environment
  import opened Utils

  datatype Credentials = Credentials(email: string, password: string)

  /**
   * The check made when the module is loaded: EMAIL and PASSWORD are the
   * variables' values, or '' when unset, and an empty one makes the import throw.
   */
  function LoadCredentials(email: Option<string>, password: Option<string>): (r: Option<Credentials>)
    ensures r.Some? <==> email.Some? && password.Some? && email.value != "" && password.value != ""
    ensures r.Some? ==> r.value.email == email.value && r.value.password == password.value
  {
    var e := if email.Some? then email.value else "";
    var p := if password.Some? then password.value else "";
    if e == "" || p == "" then None else Some(Credentials(e, p))
  }

  const LoginUrl := "https://www.linkedin.com/login"
  const UsernameField := "input#username"
  const PasswordField := "input#password"
  const SubmitButton := "button[type=\"submit\"]"

  const NavigatingMessage := "Navigating to LinkedIn login page..."
  const WaitingMessage := "Waiting for username input to be visible..."
  const TypingEmailMessage := "Typing username..."
  const TypingPasswordMessage := "Typing password..."
  const SubmittingMessage := "Submitting login form..."
  const SuccessMessage := "LinkedIn login successful."
  /** `LinkedIn login failed: ${message}`; the error's message is not modelled. */
  const FailedMessage := "LinkedIn login failed: "

  /** The stages of the login, in order; LoggedIn is reached only when every step returned. */
  datatype Stage = Navigating | AwaitingUsername | TypingEmail | TypingPassword | Submitting | LoggedIn

  /** How many steps are still ahead of a stage. */
  function Ahead(s: Stage): nat {
    match s
    case Navigating => 5
    case AwaitingUsername => 4
    case TypingEmail => 3
    case TypingPassword => 2
    case Submitting => 1
    case LoggedIn => 0
  }

  function Next(s: Stage): (t: Stage)
    requires s != LoggedIn
    ensures Ahead(t) + 1 == Ahead(s)
  {
    match s
    case Navigating => AwaitingUsername
    case AwaitingUsername => TypingEmail
    case TypingEmail => TypingPassword
    case TypingPassword => Submitting
    case Submitting => LoggedIn
  }

  /**
   * The calls a login step may make: page calls other than screenshots,
   * timers, the console, and info lines of the log.
   */
  predicate StepOp(e: Event) {
    (IsPageOp(e.op) && !e.op.Screenshot?) || e.op.Sleep? || e.op.ConsoleError? || (e.op.Log? && e.op.level == Info)
  }

  /** page.goto(login page, { waitUntil: 'networkidle' }), announced in the log. */
  function NavigateStep(w: World, o: Oracle): Outcome {
    Apply(LogAt(w, Info, NavigatingMessage), o, Goto(LoginUrl, "networkidle"))
  }

  /** page.waitForSelector(username field, { state: 'visible', timeout: 10000 }), announced. */
  function AwaitStep(w: World, o: Oracle): Outcome {
    Apply(LogAt(w, Info, WaitingMessage), o, WaitForSelector(UsernameField, "visible", 10000))
  }

  /** Click a field, then type into it with typeWithDelay's default delays; typing only after the click. */
  function FillStep(w: World, o: Oracle, field: string, text: string): (r: Outcome)
    ensures Extends(w, r.w)
  {
    var c := Apply(w, o, Click(field));
    if !c.ok then c else TypeSpec(c.w, o, field, text)
  }

  /** Announce an awaited call pair, both calls made; the step returns only when both do. */
  function SubmitStep(w: World, o: Oracle): Outcome {
    var d := DelaySpec(w, o, 1000, 2000);
    var n := Apply(LogAt(d, Info, SubmittingMessage), o, WaitForNavigation("networkidle", 15000));
    var c := Apply(n.w, o, Click(SubmitButton));
    Outcome(c.w, n.ok && c.ok)
  }

  /** The step a stage takes. */
  function Step(s: Stage, w: World, o: Oracle, cred: Credentials): (r: Outcome)
    requires s != LoggedIn
    ensures Extends(w, r.w)
  {
    match s
    case Navigating => NavigateStep(w, o)
    case AwaitingUsername => AwaitStep(w, o)
    case TypingEmail => FillStep(LogAt(w, Info, TypingEmailMessage), o, UsernameField, cred.email)
    case TypingPassword => FillStep(LogAt(DelaySpec(w, o, 800, 1200), Info, TypingPasswordMessage), o, PasswordField, cred.password)
    case Submitting => SubmitStep(w, o)
  }

  /** Where a run of steps stopped: the world, whether every step returned, and the stage it ended in. */
  datatype Reached = Reached(w: World, ok: bool, stage: Stage)

  /**
   * Run the steps from stage s on. The run returns normally exactly when it
   * reaches LoggedIn; otherwise it stops in the stage whose step threw, which
   * is s or a later one.
   */
  function Advance(s: Stage, w: World, o: Oracle, cred: Credentials): (r: Reached)
    ensures Extends(w, r.w)
    ensures r.ok <==> r.stage == LoggedIn
    ensures Ahead(r.stage) <= Ahead(s)
    decreases Ahead(s)
  {
    if s == LoggedIn then Reached(w, true, LoggedIn)
    else
      var t := Step(s, w, o, cred);
      if !t.ok then Reached(t.w, false, s)
      else Advance(Next(s), t.w, o, cred)
  }

  /** loginToLinkedIn(page): the steps, then the success line, or the error line and a rethrow. */
  function LoginSpec(w: World, o: Oracle, cred: Credentials): Reached {
    var s := Advance(Navigating, w, o, cred);
    if s.ok then s.(w := LogAt(s.w, Success, SuccessMessage))
    else s.(w := LogAt(s.w, Error, FailedMessage))
  }

  /**
   * A run that does not return stopped at the first step that threw: from is
   * the world in which the stopping stage's step began (every step before it
   * returned), that step threw, and the run ends with that step's last call.
   */
  lemma {:induction false} AdvanceStops(s: Stage, w: World, o: Oracle, cred: Credentials) returns (from: World)
    requires !Advance(s, w, o, cred).ok
    ensures var r := Advance(s, w, o, cred);
            r.stage != LoggedIn && Extends(w, from) &&
            Advance(s, w, o, cred) == Advance(r.stage, from, o, cred) &&
            !Step(r.stage, from, o, cred).ok && r.w == Step(r.stage, from, o, cred).w
    decreases Ahead(s)
  {
    var t := Step(s, w, o, cred);
    if !t.ok {
      from := w;
    } else {
      from := AdvanceStops(Next(s), t.w, o, cred);
    }
  }

  /**
   * A login that rethrows made no call after the step that threw: its trace
   * ends with that step's calls and the failure line.
   */
  lemma LoginStopsAtFailure(w: World, o: Oracle, cred: Credentials) returns (from: World)
    requires !LoginSpec(w, o, cred).ok
    ensures var r := LoginSpec(w, o, cred);
            var t := Step(r.stage, from, o, cred);
            r.stage != LoggedIn && Extends(w, from) && !t.ok &&
            Since(w, r.w) == Since(w, from) + Since(from, t.w) + [Event(Log(Error, FailedMessage), true)]
  {
    from := AdvanceStops(Navigating, w, o, cred);
    var r := LoginSpec(w, o, cred);
    var t := Step(r.stage, from, o, cred);
    SinceStep(w, from, t.w);
  }

  /** The navigation step: its announcement, then the goto, which throws only when the oracle says so. */
  lemma NavigateTrace(w: World, o: Oracle, cred: Credentials) returns (e: seq<Event>)
    ensures var t := Step(Navigating, w, o, cred);
            Since(w, t.w) == e == [Event(Log(Info, NavigatingMessage), true), Event(Goto(LoginUrl, "networkidle"), t.ok)] &&
            (t.ok <==> |w.events| + 1 !in o.faults)
  {
    var t := Step(Navigating, w, o, cred);
    e := [Event(Log(Info, NavigatingMessage), true), Event(Goto(LoginUrl, "networkidle"), t.ok)];
  }

  /** The wait for the username field: its announcement, then the wait with a 10000 ms timeout. */
  lemma AwaitTrace(w: World, o: Oracle, cred: Credentials) returns (e: seq<Event>)
    ensures var t := Step(AwaitingUsername, w, o, cred);
            Since(w, t.w) == e ==
              [Event(Log(Info, WaitingMessage), true), Event(WaitForSelector(UsernameField, "visible", 10000), t.ok)] &&
            (t.ok <==> |w.events| + 1 !in o.faults)
  {
    var t := Step(AwaitingUsername, w, o, cred);
    e := [Event(Log(Info, WaitingMessage), true), Event(WaitForSelector(UsernameField, "visible", 10000), t.ok)];
  }

  /** A field filled without error: the click, then one keystroke and one pause per character of text. */
  lemma FillTrace(w: World, o: Oracle, field: string, text: string) returns (keys: seq<Event>)
    requires FillStep(w, o, field, text).ok
    ensures var t := FillStep(w, o, field, text);
            Since(w, t.w) == [Event(Click(field), true)] + keys && Keystrokes(keys, field, text)
  {
    var c := Apply(w, o, Click(field));
    var r := TypeSpec(c.w, o, field, text);
    TypingLayout(c.w, o, field, text, 100, 300);
    keys := Since(c.w, r.w);
    CompleteTyping(keys, field, text, Typed(o.faults, |c.w.events|, |text|));
    SinceStep(w, c.w, r.w);
  }

  /** The trace of a typing call that returned normally is the keystrokes of the whole text. */
  lemma CompleteTyping(e: seq<Event>, field: string, text: string, n: nat)
    requires TypingTrace(e, field, text, n, true)
    ensures Keystrokes(e, field, text)
  {
    assert e[..2 * n] == e;
    assert text[..n] == text;
  }

  /** Typing the email without error: the announcement, the click on the username field, the email's keystrokes. */
  lemma EmailTrace(w: World, o: Oracle, cred: Credentials) returns (keys: seq<Event>)
    requires Step(TypingEmail, w, o, cred).ok
    ensures Since(w, Step(TypingEmail, w, o, cred).w) ==
              [Event(Log(Info, TypingEmailMessage), true), Event(Click(UsernameField), true)] + keys
    ensures Keystrokes(keys, UsernameField, cred.email)
  {
    var l := LogAt(w, Info, TypingEmailMessage);
    keys := FillTrace(l, o, UsernameField, cred.email);
    SinceStep(w, l, FillStep(l, o, UsernameField, cred.email).w);
  }

  /**
   * Typing the password without error: the 800 to 1200 ms pause, the
   * announcement, the click on the password field, the password's keystrokes.
   */
  lemma PasswordTrace(w: World, o: Oracle, cred: Credentials) returns (d: int, keys: seq<Event>)
    requires Step(TypingPassword, w, o, cred).ok
    ensures Since(w, Step(TypingPassword, w, o, cred).w) ==
              [Event(Sleep(d), true), Event(Log(Info, TypingPasswordMessage), true), Event(Click(PasswordField), true)] + keys
    ensures Keystrokes(keys, PasswordField, cred.password)
    ensures 800 <= d <= 1200
  {
    var p := DelaySpec(w, o, 800, 1200);
    d := DelayMs(800, 1200, NextRandom(w, o));
    DelayWithinBounds(800, 1200, NextRandom(w, o));
    var l := LogAt(p, Info, TypingPasswordMessage);
    keys := FillTrace(l, o, PasswordField, cred.password);
    SinceStep(w, p, l);
    SinceStep(w, l, FillStep(l, o, PasswordField, cred.password).w);
  }

  /**
   * The submit step: the 1000 to 2000 ms pause, the announcement, then both
   * the navigation wait (timeout 15000) and the click on the submit button are
   * made; the step returns normally only when both of them do.
   */
  lemma SubmitTrace(w: World, o: Oracle, cred: Credentials) returns (d: int, navigated: bool, clicked: bool)
    ensures var t := Step(Submitting, w, o, cred);
            Since(w, t.w) ==
              [Event(Sleep(d), true), Event(Log(Info, SubmittingMessage), true),
               Event(WaitForNavigation("networkidle", 15000), navigated), Event(Click(SubmitButton), clicked)] &&
            (t.ok <==> navigated && clicked)
    ensures navigated <==> |w.events| + 2 !in o.faults
    ensures clicked <==> |w.events| + 3 !in o.faults
    ensures 1000 <= d <= 2000
  {
    d := DelayMs(1000, 2000, NextRandom(w, o));
    DelayWithinBounds(1000, 2000, NextRandom(w, o));
    var p := DelaySpec(w, o, 1000, 2000);
    var l := LogAt(p, Info, SubmittingMessage);
    var n := Apply(l, o, WaitForNavigation("networkidle", 15000));
    var c := Apply(n.w, o, Click(SubmitButton));
    navigated, clicked := n.ok, c.ok;
    assert c.w.events == w.events + [Event(Sleep(d), true), Event(Log(Info, SubmittingMessage), true),
                                     Event(WaitForNavigation("networkidle", 15000), navigated), Event(Click(SubmitButton), clicked)];
  }

  /** Clicking and typing into a field touches only the page, whether or not it throws. */
  lemma FillFrame(w: World, o: Oracle, field: string, text: string)
    ensures var t := FillStep(w, o, field, text);
            t.w.open == w.open && t.w.jar == w.jar && t.w.files == w.files && t.w.dirs == w.dirs &&
            forall e :: e in Since(w, t.w) ==> StepOp(e)
  {
    var c := Apply(w, o, Click(field));
    assert Since(w, c.w) == [Event(Click(field), c.ok)];
    if c.ok {
      var r := TypeSpec(c.w, o, field, text);
      SinceStep(w, c.w, r.w);
    }
  }

  /** A typing step: what comes before the click (a pause, an info line) changes only the trace. */
  lemma TypingFrame(w: World, l: World, o: Oracle, field: string, text: string)
    requires Extends(w, l) && l == w.(events := l.events, drawn := l.drawn)
    requires forall e :: e in Since(w, l) ==> StepOp(e)
    ensures var t := FillStep(l, o, field, text);
            Extends(w, t.w) &&
            t.w.open == w.open && t.w.jar == w.jar && t.w.files == w.files && t.w.dirs == w.dirs &&
            forall e :: e in Since(w, t.w) ==> StepOp(e)
  {
    FillFrame(l, o, field, text);
    SinceStep(w, l, FillStep(l, o, field, text).w);
  }

  /**
   * A step leaves the browser, the cookie jar and the file system as they
   * were, and makes only login calls, whether or not it throws.
   */
  lemma StepFrame(s: Stage, w: World, o: Oracle, cred: Credentials)
    requires s != LoggedIn
    ensures var t := Step(s, w, o, cred);
            t.w.open == w.open && t.w.jar == w.jar && t.w.files == w.files && t.w.dirs == w.dirs &&
            forall e :: e in Since(w, t.w) ==> StepOp(e)
  {
    match s
    case Navigating =>
      var e := NavigateTrace(w, o, cred);
    case AwaitingUsername =>
      var e := AwaitTrace(w, o, cred);
    case TypingEmail =>
      TypingFrame(w, LogAt(w, Info, TypingEmailMessage), o, UsernameField, cred.email);
    case TypingPassword =>
      var p := DelaySpec(w, o, 800, 1200);
      var l := LogAt(p, Info, TypingPasswordMessage);
      TypingFrame(w, l, o, PasswordField, cred.password);
    case Submitting =>
      var d, n, c := SubmitTrace(w, o, cred);
  }

  /** The same holds for any run of steps. */
  lemma {:induction false} AdvanceFrame(s: Stage, w: World, o: Oracle, cred: Credentials)
    ensures var r := Advance(s, w, o, cred);
            r.w.open == w.open && r.w.jar == w.jar && r.w.files == w.files && r.w.dirs == w.dirs &&
            forall e :: e in Since(w, r.w) ==> StepOp(e)
    decreases Ahead(s)
  {
    if s != LoggedIn {
      var t := Step(s, w, o, cred);
      StepFrame(s, w, o, cred);
      if t.ok {
        AdvanceFrame(Next(s), t.w, o, cred);
        SinceStep(w, t.w, Advance(Next(s), t.w, o, cred).w);
      }
    }
  }

  /**
   * loginToLinkedIn leaves the browser, the jar and the file system alone;
   * before its last line the log holds only info lines, and the last line is
   * the success line exactly when it returns normally, the failure line
   * exactly when it rethrows.
   */
  lemma LoginFrame(w: World, o: Oracle, cred: Credentials)
    ensures var r := LoginSpec(w, o, cred);
            var e := Since(w, r.w);
            r.w.open == w.open && r.w.jar == w.jar && r.w.files == w.files && r.w.dirs == w.dirs &&
            |e| > 0 && (forall i :: 0 <= i < |e| - 1 ==> StepOp(e[i])) &&
            (r.ok <==> e[|e| - 1] == Event(Log(Success, SuccessMessage), true)) &&
            (!r.ok <==> e[|e| - 1] == Event(Log(Error, FailedMessage), true))
  {
    var s := Advance(Navigating, w, o, cred);
    AdvanceFrame(Navigating, w, o, cred);
    var r := LoginSpec(w, o, cred);
    SinceStep(w, s.w, r.w);
    assert Since(w, r.w) == Since(w, s.w) + [r.w.events[|r.w.events| - 1]];
  }

  /** The kinds of call counted over a whole run that a login never makes. */
  predicate LoginTally(e: seq<Event>) {
    Count(e, KExists) == 0 && Count(e, KCookies) == 0 && Count(e, KWriteFile) == 0 &&
    Count(e, KScreenshot) == 0 && Count(e, KLaunch) == 0 && Count(e, KClose) == 0
  }

  /** Login calls followed by one log line. */
  lemma StepsTally(e: seq<Event>)
    requires |e| > 0 && e[|e| - 1].op.Log?
    requires forall i :: 0 <= i < |e| - 1 ==> StepOp(e[i])
    ensures LoginTally(e)
    ensures e[|e| - 1].op.level != Success ==> NoSuccessLog(e)
  {
    var body := e[..|e| - 1];
    assert e == body + [e[|e| - 1]];
    assert forall x :: x in body ==> StepOp(x);
    SkipsKind(body, e[|e| - 1], KExists);
    SkipsKind(body, e[|e| - 1], KCookies);
    SkipsKind(body, e[|e| - 1], KWriteFile);
    SkipsKind(body, e[|e| - 1], KScreenshot);
    SkipsKind(body, e[|e| - 1], KLaunch);
    SkipsKind(body, e[|e| - 1], KClose);
  }

  lemma SkipsKind(body: seq<Event>, last: Event, k: Kind)
    requires forall x :: x in body ==> StepOp(x)
    requires last.op.Log?
    requires k in {KExists, KCookies, KWriteFile, KScreenshot, KLaunch, KClose}
    ensures Count(body + [last], k) == 0
  {
    CountNone(body, k);
    CountSingle(last, k);
    CountAppend(body, [last], k);
  }

  /**
   * loginToLinkedIn never checks for or writes a file, reads the cookies,
   * takes a screenshot, or launches or closes the browser; when it rethrows
   * nothing was logged at the success level.
   */
  lemma LoginCounts(w: World, o: Oracle, cred: Credentials)
    ensures var r := LoginSpec(w, o, cred);
            LoginTally(Since(w, r.w)) && (!r.ok ==> NoSuccessLog(Since(w, r.w)))
  {
    LoginFrame(w, o, cred);
    StepsTally(Since(w, LoginSpec(w, o, cred).w));
  }

  /** When the goto throws, nothing else is tried: the failure is logged and rethrown. */
  lemma LoginStopsAtNavigation(w: World, o: Oracle, cred: Credentials)
    requires |w.events| + 1 in o.faults
    ensures var r := LoginSpec(w, o, cred);
            !r.ok && r.stage == Navigating &&
            Since(w, r.w) == [Event(Log(Info, NavigatingMessage), true), Event(Goto(LoginUrl, "networkidle"), false),
                              Event(Log(Error, FailedMessage), true)]
  {
    var e := NavigateTrace(w, o, cred);
  }

  /**
   * When the username field does not show up within 10000 ms, neither field is
   * clicked or typed into: the failure is logged and rethrown.
   */
  lemma LoginStopsAtUsernameWait(w: World, o: Oracle, cred: Credentials)
    requires |w.events| + 1 !in o.faults && |w.events| + 3 in o.faults
    ensures var r := LoginSpec(w, o, cred);
            !r.ok && r.stage == AwaitingUsername &&
            Since(w, r.w) == [Event(Log(Info, NavigatingMessage), true), Event(Goto(LoginUrl, "networkidle"), true),
                              Event(Log(Info, WaitingMessage), true),
                              Event(WaitForSelector(UsernameField, "visible", 10000), false),
                              Event(Log(Error, FailedMessage), true)]
  {
    var a := Step(Navigating, w, o, cred);
    var e1 := NavigateTrace(w, o, cred);
    var e2 := AwaitTrace(a.w, o, cred);
    var b := Step(AwaitingUsername, a.w, o, cred);
    SinceStep(w, a.w, b.w);
  }

  /**
   * A login that returns normally made every step, in order: the goto, the
   * wait for the username field, the click on it and one keystroke (with its
   * pause) per character of the email, an 800 to 1200 ms pause, the click on
   * the password field and the password's keystrokes, a 1000 to 2000 ms
   * pause, the navigation wait and the submit click; then the success line.
   */
  lemma LoginSucceeds(w: World, o: Oracle, cred: Credentials)
    returns (email: seq<Event>, password: seq<Event>, d1: int, d2: int)
    requires LoginSpec(w, o, cred).ok
    ensures Since(w, LoginSpec(w, o, cred).w) ==
              [Event(Log(Info, NavigatingMessage), true), Event(Goto(LoginUrl, "networkidle"), true),
               Event(Log(Info, WaitingMessage), true), Event(WaitForSelector(UsernameField, "visible", 10000), true),
               Event(Log(Info, TypingEmailMessage), true), Event(Click(UsernameField), true)] + email +
              [Event(Sleep(d1), true), Event(Log(Info, TypingPasswordMessage), true), Event(Click(PasswordField), true)] +
              password +
              [Event(Sleep(d2), true), Event(Log(Info, SubmittingMessage), true),
               Event(WaitForNavigation("networkidle", 15000), true), Event(Click(SubmitButton), true),
               Event(Log(Success, SuccessMessage), true)]
    ensures Keystrokes(email, UsernameField, cred.email) && Keystrokes(password, PasswordField, cred.password)
    ensures 800 <= d1 <= 1200 && 1000 <= d2 <= 2000
  {
    var a, b, c, d, f := CompletedSteps(w, o, cred);
    var r := LoginSpec(w, o, cred).w;
    var ea := NavigateTrace(w, o, cred);
    var eb := AwaitTrace(a, o, cred);
    email := EmailTrace(b, o, cred);
    d1, password := PasswordTrace(c, o, cred);
    var navigated, clicked;
    d2, navigated, clicked := SubmitTrace(d, o, cred);
    SinceChain(w, a, b, c, d, f, r);
    SuccessLayout(Since(w, r), ea, eb, Since(b, c), Since(c, d), Since(d, f), Since(f, r), email, password, d1, d2);
  }

  /** The success trace put together from the traces of the steps. */
  lemma SuccessLayout(all: seq<Event>, ea: seq<Event>, eb: seq<Event>, ec: seq<Event>, ed: seq<Event>,
                      ef: seq<Event>, fin: seq<Event>, email: seq<Event>, password: seq<Event>, d1: int, d2: int)
    requires all == ea + eb + ec + ed + ef + fin
    requires ea == [Event(Log(Info, NavigatingMessage), true), Event(Goto(LoginUrl, "networkidle"), true)]
    requires eb == [Event(Log(Info, WaitingMessage), true), Event(WaitForSelector(UsernameField, "visible", 10000), true)]
    requires ec == [Event(Log(Info, TypingEmailMessage), true), Event(Click(UsernameField), true)] + email
    requires ed == [Event(Sleep(d1), true), Event(Log(Info, TypingPasswordMessage), true), Event(Click(PasswordField), true)] + password
    requires ef == [Event(Sleep(d2), true), Event(Log(Info, SubmittingMessage), true),
                    Event(WaitForNavigation("networkidle", 15000), true), Event(Click(SubmitButton), true)]
    requires fin == [Event(Log(Success, SuccessMessage), true)]
    ensures all ==
              [Event(Log(Info, NavigatingMessage), true), Event(Goto(LoginUrl, "networkidle"), true),
               Event(Log(Info, WaitingMessage), true), Event(WaitForSelector(UsernameField, "visible", 10000), true),
               Event(Log(Info, TypingEmailMessage), true), Event(Click(UsernameField), true)] + email +
              [Event(Sleep(d1), true), Event(Log(Info, TypingPasswordMessage), true), Event(Click(PasswordField), true)] +
              password +
              [Event(Sleep(d2), true), Event(Log(Info, SubmittingMessage), true),
               Event(WaitForNavigation("networkidle", 15000), true), Event(Click(SubmitButton), true),
               Event(Log(Success, SuccessMessage), true)]
  {
  }

  /** A login that returns normally went through all five steps, each returning normally. */
  lemma CompletedSteps(w: World, o: Oracle, cred: Credentials) returns (a: World, b: World, c: World, d: World, f: World)
    requires LoginSpec(w, o, cred).ok
    ensures Step(Navigating, w, o, cred) == Outcome(a, true)
    ensures Step(AwaitingUsername, a, o, cred) == Outcome(b, true)
    ensures Step(TypingEmail, b, o, cred) == Outcome(c, true)
    ensures Step(TypingPassword, c, o, cred) == Outcome(d, true)
    ensures Step(Submitting, d, o, cred) == Outcome(f, true)
    ensures LoginSpec(w, o, cred).w == LogAt(f, Success, SuccessMessage)
  {
    a := Step(Navigating, w, o, cred).w;
    b := Step(AwaitingUsername, a, o, cred).w;
    c := Step(TypingEmail, b, o, cred).w;
    d := Step(TypingPassword, c, o, cred).w;
    f := Step(Submitting, d, o, cred).w;
  }

  /** The trace of a run of steps is the traces of its steps, one after the other. */
  lemma SinceChain(w: World, a: World, b: World, c: World, d: World, f: World, r: World)
    requires Extends(w, a) && Extends(a, b) && Extends(b, c) && Extends(c, d) && Extends(d, f) && Extends(f, r)
    ensures Extends(w, r)
    ensures Since(w, r) == Since(w, a) + Since(a, b) + Since(b, c) + Since(c, d) + Since(d, f) + Since(f, r)
  {
    SinceStep(w, a, b);
    SinceStep(w, b, c);
    SinceStep(w, c, d);
    SinceStep(w, d, f);
    SinceStep(w, f, r);
  }

  /** One stage of the run: its step, then the rest of the run when the step returned normally. */
  lemma AdvanceOnce(s: Stage, w: World, o: Oracle, cred: Credentials)
    requires s != LoggedIn
    ensures var t := Step(s, w, o, cred);
            Advance(s, w, o, cred) == if t.ok then Advance(Next(s), t.w, o, cred) else Reached(t.w, false, s)
  {
  }

  /** log.info, then page.goto(login page, { waitUntil: 'networkidle' }). */
  method Navigate(h: Host, cred: Credentials) returns (ok: bool)
    modifies h
    ensures var t := Step(Navigating, old(h.State()), h.oracle, cred); h.State() == t.w && ok == t.ok
  {
    h.Log(Info, NavigatingMessage);
    ok := h.Call(Goto(LoginUrl, "networkidle"));
  }

  /** log.info, then page.waitForSelector(username field, { state: 'visible', timeout: 10000 }). */
  method AwaitUsername(h: Host, cred: Credentials) returns (ok: bool)
    modifies h
    ensures var t := Step(AwaitingUsername, old(h.State()), h.oracle, cred); h.State() == t.w && ok == t.ok
  {
    h.Log(Info, WaitingMessage);
    ok := h.Call(WaitForSelector(UsernameField, "visible", 10000));
  }

  /** log.info, then click the username field and type the email into it. */
  method TypeEmail(h: Host, cred: Credentials) returns (ok: bool)
    modifies h
    ensures var t := Step(TypingEmail, old(h.State()), h.oracle, cred); h.State() == t.w && ok == t.ok
  {
    h.Log(Info, TypingEmailMessage);
    ok := Fill(h, UsernameField, cred.email);
  }

  /** randomDelay(800, 1200), log.info, then click the password field and type the password into it. */
  method TypePassword(h: Host, cred: Credentials) returns (ok: bool)
    modifies h
    ensures var t := Step(TypingPassword, old(h.State()), h.oracle, cred); h.State() == t.w && ok == t.ok
  {
    RandomDelay(h, 800, 1200);
    h.Log(Info, TypingPasswordMessage);
    ok := Fill(h, PasswordField, cred.password);
  }

  method Fill(h: Host, field: string, text: string) returns (ok: bool)
    modifies h
    ensures var t := FillStep(old(h.State()), h.oracle, field, text); h.State() == t.w && ok == t.ok
  {
    ok := h.Call(Click(field));
    if ok {
      ok := TypeWithDelay(h, field, text);
    }
  }

  /**
   * randomDelay(1000, 2000), log.info, then Promise.all over the navigation
   * wait and the submit click: both are made, and it throws if either does.
   */
  method Submit(h: Host, cred: Credentials) returns (ok: bool)
    modifies h
    ensures var t := Step(Submitting, old(h.State()), h.oracle, cred); h.State() == t.w && ok == t.ok
  {
    RandomDelay(h, 1000, 2000);
    h.Log(Info, SubmittingMessage);
    var navigated := h.Call(WaitForNavigation("networkidle", 15000));
    var clicked := h.Call(Click(SubmitButton));
    ok := navigated && clicked;
  }

  /**
   * loginToLinkedIn(page): the five steps in order, each only after the one
   * before returned. The stage is the one the login stopped in (the one whose
   * step threw), or LoggedIn; ok is false when the call rethrows.
   */
  method Login(h: Host, cred: Credentials) returns (ok: bool, stage: Stage)
    modifies h
    ensures var r := LoginSpec(old(h.State()), h.oracle, cred);
            h.State() == r.w && ok == r.ok && stage == r.stage
  {
    ok, stage := OpenForm(h, cred);
    if ok {
      ok, stage := FillForm(h, cred);
    }
    if ok {
      h.Log(Success, SuccessMessage);
    } else {
      h.Log(Error, FailedMessage);
    }
  }

  /**
   * The first two steps: open the login page and wait for the username
   * field. When both return, the run goes on from TypingEmail; otherwise it
   * stopped in the stage returned.
   */
  method OpenForm(h: Host, cred: Credentials) returns (ok: bool, stage: Stage)
    modifies h
    ensures var run := Advance(Navigating, old(h.State()), h.oracle, cred);
            if ok then stage == TypingEmail && run == Advance(TypingEmail, h.State(), h.oracle, cred)
            else run == Reached(h.State(), false, stage)
  {
    stage := Navigating;
    AdvanceOnce(stage, h.State(), h.oracle, cred);
    ok := Navigate(h, cred);
    if ok {
      stage := AwaitingUsername;
      AdvanceOnce(stage, h.State(), h.oracle, cred);
      ok := AwaitUsername(h, cred);
      if ok {
        stage := TypingEmail;
      }
    }
  }

  /** The last three steps: type the email, type the password, submit. */
  method FillForm(h: Host, cred: Credentials) returns (ok: bool, stage: Stage)
    modifies h
    ensures var r := Advance(TypingEmail, old(h.State()), h.oracle, cred);
            h.State() == r.w && ok == r.ok && stage == r.stage
  {
    stage := TypingEmail;
    AdvanceOnce(stage, h.State(), h.oracle, cred);
    ok := TypeEmail(h, cred);
    if ok {
      stage := TypingPassword;
      AdvanceOnce(stage, h.State(), h.oracle, cred);
      ok := TypePassword(h, cred);
    }
    if ok {
      stage := Submitting;
      AdvanceOnce(stage, h.State(), h.oracle, cred);
      ok := Submit(h, cred);
      if ok {
        stage := LoggedIn;
      }
    }
  }
}
