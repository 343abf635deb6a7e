/**
 * The world outside the automation script: the Playwright browser, its
 * context (cookie jar) and page, the file system, the timer, the logger and the
 * source of Math.random(). Every call the script makes into it is recorded, in
 * order, as an Event. Which calls throw, and which random numbers come out, are
 * fixed in advance by an Oracle, so a run is a function of its inputs.
 */
module Environment {

  datatype Option<T> = None | Some(value: T)

  /** The values Math.random() can return. */
  type Unit = u: real | 0.0 <= u < 1.0

  /** A browser cookie, exchanged verbatim with the browser and the session file. */
  datatype Cookie = Cookie(
    name: string, value: string, domain: string, path: string,
    expires: int, httpOnly: bool, secure: bool, sameSite: string)

  /** What a file holds: a cookie array written by JSON.stringify, a PNG capture, or anything else. */
  datatype FileData = CookieJson(cookies: seq<Cookie>) | Png(fullPage: bool) | Foreign

  datatype Level = Info | Success | Warn | Error

  /** One call into the environment. */
  datatype Op =
    // browser (chromium.launch + newContext + newPage, and browser.close)
    | Launch
    | Close
    // page
    | Goto(url: string, waitUntil: string)
    | WaitForSelector(selector: string, state: string, timeout: int)
    | Click(selector: string)
    | Type(selector: string, key: char, delay: int)
    | WaitForNavigation(waitUntil: string, timeout: int)
    | Screenshot(path: string, fullPage: bool)
    // context
    | Cookies
    | AddCookies(cookies: seq<Cookie>)
    // file system
    | Exists(path: string)
    | Mkdir(path: string)
    | WriteFile(path: string, data: FileData)
    | ReadFile(path: string)
    // timer, logger, console
    | Sleep(ms: int)
    | Log(level: Level, msg: string)
    | ConsoleError(msg: string)

  /** The constructor of an Op, without its arguments (for counting). */
  datatype Kind =
    KLaunch | KClose | KGoto | KWaitForSelector | KClick | KType | KWaitForNavigation
    | KScreenshot | KCookies | KAddCookies | KExists | KMkdir | KWriteFile | KReadFile
    | KSleep | KLog | KConsoleError

  function KindOf(op: Op): Kind {
    match op
    case Launch => KLaunch
    case Close => KClose
    case Goto(_, _) => KGoto
    case WaitForSelector(_, _, _) => KWaitForSelector
    case Click(_) => KClick
    case Type(_, _, _) => KType
    case WaitForNavigation(_, _) => KWaitForNavigation
    case Screenshot(_, _) => KScreenshot
    case Cookies => KCookies
    case AddCookies(_) => KAddCookies
    case Exists(_) => KExists
    case Mkdir(_) => KMkdir
    case WriteFile(_, _) => KWriteFile
    case ReadFile(_) => KReadFile
    case Sleep(_) => KSleep
    case Log(_, _) => KLog
    case ConsoleError(_) => KConsoleError
  }

  /** Calls on the Playwright page object. */
  predicate IsPageOp(op: Op) {
    op.Goto? || op.WaitForSelector? || op.Click? || op.Type? || op.WaitForNavigation? || op.Screenshot?
  }

  /** A recorded call and whether it returned normally (false: it threw). */
  datatype Event = Event(op: Op, ok: bool)

  datatype World = World(
    events: seq<Event>,             // every call made so far, in order
    open: bool,                     // the browser is running
    jar: seq<Cookie>,               // the browser context's cookies
    fields: map<string, string>,    // text typed into the page's inputs, by selector
    files: map<string, FileData>,   // the file system: files ...
    dirs: set<string>,              // ... and directories
    drawn: nat)                     // how many Math.random() values have been used

  /** Which calls throw (by the position their event takes in the trace) and what Math.random() returns. */
  datatype Oracle = Oracle(faults: set<nat>, random: nat -> Unit)

  /** The new world after a call, and whether the call returned normally. */
  datatype Outcome = Outcome(w: World, ok: bool)

  /** The text currently in the input named by a selector. */
  function Field(w: World, selector: string): string {
    if selector in w.fields then w.fields[selector] else ""
  }

  /** existsSync: a file or a directory is at the path. */
  predicate Present(w: World, path: string) {
    path in w.files || path in w.dirs
  }

  /** Calls that can throw; the others (existsSync, timers, logging) never do. */
  predicate Fallible(op: Op) {
    !(op.Exists? || op.Sleep? || op.Log? || op.ConsoleError?)
  }

  /** What the file system itself refuses, whatever the oracle says. */
  predicate Permitted(w: World, op: Op) {
    match op
    case ReadFile(p) => p in w.files                 // ENOENT, EISDIR
    case Mkdir(p) => p != "" && p !in w.files        // ENOENT, EEXIST
    case WriteFile(p, _) => p !in w.dirs             // EISDIR
    case Screenshot(p, _) => p !in w.dirs
    case _ => true
  }

  /** A call made in world w returns normally. */
  predicate Succeeds(w: World, o: Oracle, op: Op) {
    (Fallible(op) ==> |w.events| !in o.faults) && Permitted(w, op)
  }

  /** The change a call makes when it returns normally (the trace aside). */
  function Effect(w: World, op: Op): World {
    match op
    case Launch => w.(open := true, jar := [], fields := map[])
    case Close => w.(open := false)
    case Goto(_, _) => w.(fields := map[])
    case Type(sel, key, _) => w.(fields := w.fields[sel := Field(w, sel) + [key]])
    case AddCookies(cs) => w.(jar := w.jar + cs)
    case Mkdir(p) => w.(dirs := w.dirs + {p})
    case WriteFile(p, d) => w.(files := w.files[p := d])
    case Screenshot(p, full) => w.(files := w.files[p := Png(full)])
    case _ => w
  }

  /** Make one call: record it, and apply its effect when it does not throw. */
  function Apply(w: World, o: Oracle, op: Op): (r: Outcome)
    ensures r.w.events == w.events + [Event(op, r.ok)]
    ensures r.ok <==> (Fallible(op) ==> |w.events| !in o.faults) && Permitted(w, op)
    ensures !r.ok ==> r.w == w.(events := r.w.events)
    ensures r.w.drawn == w.drawn
    ensures !(op.Launch? || op.Close?) ==> r.w.open == w.open
    ensures !(op.Launch? || op.AddCookies?) ==> r.w.jar == w.jar
    ensures !(op.Launch? || op.Goto? || op.Type?) ==> r.w.fields == w.fields
    ensures !(op.WriteFile? || op.Screenshot?) ==> r.w.files == w.files
    ensures !op.Mkdir? ==> r.w.dirs == w.dirs
  {
    var ok := Succeeds(w, o, op);
    var w' := if ok then Effect(w, op) else w;
    Outcome(w'.(events := w.events + [Event(op, ok)]), ok)
  }

  /** Make a call that cannot throw and changes nothing but the trace. */
  function Note(w: World, op: Op): World
    requires !Fallible(op)
  {
    w.(events := w.events + [Event(op, true)])
  }

  function LogAt(w: World, level: Level, msg: string): World {
    Note(w, Log(level, msg))
  }

  /** The next value of Math.random(), and the world after drawing it. */
  function NextRandom(w: World, o: Oracle): Unit {
    o.random(w.drawn)
  }

  function AfterDraw(w: World): World {
    w.(drawn := w.drawn + 1)
  }

  /** w1 only adds to the trace of w0. */
  predicate Extends(w0: World, w1: World) {
    w0.events <= w1.events
  }

  /** The events w1 recorded after w0. */
  function Since(w0: World, w1: World): seq<Event>
    requires Extends(w0, w1)
  {
    w1.events[|w0.events|..]
  }

  /** No line of the trace is logged at the success level. */
  predicate NoSuccessLog(evs: seq<Event>) {
    forall e :: e in evs ==> !(e.op.Log? && e.op.level == Success)
  }

  /** How many recorded calls are of a given kind. */
  function Count(evs: seq<Event>, k: Kind): nat {
    if evs == [] then 0
    else (if KindOf(evs[0].op) == k then 1 else 0) + Count(evs[1..], k)
  }

  lemma {:induction false} CountAppend(a: seq<Event>, b: seq<Event>, k: Kind)
    ensures Count(a + b, k) == Count(a, k) + Count(b, k)
  {
    if a == [] {
      assert a + b == b;
    } else {
      assert (a + b)[1..] == a[1..] + b;
      CountAppend(a[1..], b, k);
    }
  }

  /** Whether one event is of kind k, as a number. */
  function Hit(e: Event, k: Kind): nat {
    if KindOf(e.op) == k then 1 else 0
  }

  lemma CountSingle(e: Event, k: Kind)
    ensures Count([e], k) == Hit(e, k)
  {
    assert [e][1..] == [];
  }

  lemma Count2(a: Event, b: Event, k: Kind)
    ensures Count([a, b], k) == Hit(a, k) + Hit(b, k)
  {
    assert [a, b][1..] == [b];
    CountSingle(b, k);
  }

  lemma Count3(a: Event, b: Event, c: Event, k: Kind)
    ensures Count([a, b, c], k) == Hit(a, k) + Hit(b, k) + Hit(c, k)
  {
    assert [a, b, c][1..] == [b, c];
    Count2(b, c, k);
  }

  lemma Count4(a: Event, b: Event, c: Event, d: Event, k: Kind)
    ensures Count([a, b, c, d], k) == Hit(a, k) + Hit(b, k) + Hit(c, k) + Hit(d, k)
  {
    assert [a, b, c, d][1..] == [b, c, d];
    Count3(b, c, d, k);
  }

  lemma {:induction false} CountNone(evs: seq<Event>, k: Kind)
    requires forall e :: e in evs ==> KindOf(e.op) != k
    ensures Count(evs, k) == 0
  {
    if evs != [] {
      assert evs[0] in evs;
      CountNone(evs[1..], k);
    }
  }

  lemma SinceStep(w0: World, w1: World, w2: World)
    requires Extends(w0, w1) && Extends(w1, w2)
    ensures Extends(w0, w2)
    ensures Since(w0, w2) == Since(w0, w1) + Since(w1, w2)
  {
  }

  /**
   * The environment as a mutable object: what the script's awaits act on.
   * Its state is always State(), and every call it serves changes that state
   * exactly as Apply says.
   */
  class Host {
    var events: seq<Event>
    var open: bool
    var jar: seq<Cookie>
    var fields: map<string, string>
    var files: map<string, FileData>
    var dirs: set<string>
    var drawn: nat
    const oracle: Oracle

    function State(): World
      reads this
    {
      World(events, open, jar, fields, files, dirs, drawn)
    }

    constructor (w: World, oracle: Oracle)
      ensures State() == w && this.oracle == oracle
    {
      events, open, jar, fields := w.events, w.open, w.jar, w.fields;
      files, dirs, drawn := w.files, w.dirs, w.drawn;
      this.oracle := oracle;
    }

    method Become(w: World)
      modifies this
      ensures State() == w
    {
      events, open, jar, fields := w.events, w.open, w.jar, w.fields;
      files, dirs, drawn := w.files, w.dirs, w.drawn;
    }

    /** Make a call whose result is only whether it threw. */
    method Call(op: Op) returns (ok: bool)
      modifies this
      ensures var r := Apply(old(State()), oracle, op); State() == r.w && ok == r.ok
    {
      var r := Apply(State(), oracle, op);
      Become(r.w);
      ok := r.ok;
    }

    /** Make a call that cannot throw. */
    method Do(op: Op)
      requires !Fallible(op)
      modifies this
      ensures State() == Note(old(State()), op)
    {
      Become(Note(State(), op));
    }

    /** fs.existsSync(path). */
    method Exists(path: string) returns (present: bool)
      modifies this
      ensures State() == Note(old(State()), Op.Exists(path))
      ensures present == Present(old(State()), path)
    {
      present := Present(State(), path);
      Do(Op.Exists(path));
    }

    /** fs.readFileSync(path): the contents, when it does not throw. */
    method ReadFile(path: string) returns (ok: bool, data: FileData)
      modifies this
      ensures var r := Apply(old(State()), oracle, Op.ReadFile(path)); State() == r.w && ok == r.ok
      ensures ok ==> path in old(files) && data == old(files)[path]
    {
      data := if path in files then files[path] else Foreign;
      ok := Call(Op.ReadFile(path));
    }

    /** context.cookies(): the jar, when it does not throw. */
    method Cookies() returns (ok: bool, cookies: seq<Cookie>)
      modifies this
      ensures var r := Apply(old(State()), oracle, Op.Cookies); State() == r.w && ok == r.ok
      ensures cookies == old(jar)
    {
      cookies := jar;
      ok := Call(Op.Cookies);
    }

    /** Math.random(). */
    method Random() returns (u: Unit)
      modifies this
      ensures u == NextRandom(old(State()), oracle)
      ensures State() == AfterDraw(old(State()))
    {
      u := oracle.random(drawn);
      drawn := drawn + 1;
    }

    /** log.info, log.success, log.warn, log.error. */
    method Log(level: Level, msg: string)
      modifies this
      ensures State() == LogAt(old(State()), level, msg)
    {
      Do(Op.Log(level, msg));
    }
  }
}
