/**
 * The session store: the browser context's cookies saved to, and loaded
 * from, one JSON file per site. Neither operation ever throws: every failure
 * is logged and swallowed.
 */
module SessionManager {
  import opened Environment
  import opened NodePath

  /** config.sessionPath. */
  const SessionPathSetting: Option<string> := Some("sessions/")

  /** config.sessionPath || 'sessions': a missing or empty setting falls back to "sessions". */
  function SessionDir(setting: Option<string>): (d: string)
    ensures d != ""
    ensures setting.Some? && setting.value != "" ==> d == setting.value
    ensures setting.None? || setting.value == "" ==> d == "sessions"
  {
    match setting
    case Some(s) => if s != "" then s else "sessions"
    case None => "sessions"
  }

  /** getSessionFilePath(site): path.join(sessionDir, `${site}.json`). */
  function SessionFilePath(site: string): string {
    Join(SessionDir(SessionPathSetting), site + ".json")
  }

  /** JSON.stringify of a cookie array ... */
  function Serialize(cookies: seq<Cookie>): (d: FileData)
    ensures Parse(d) == Some(cookies)
  {
    CookieJson(cookies)
  }

  /** ... and JSON.parse, which rejects anything else. */
  function Parse(d: FileData): Option<seq<Cookie>> {
    match d
    case CookieJson(cs) => Some(cs)
    case _ => None
  }

  function SavedMessage(path: string): string {
    "Session saved to: " + path
  }

  function SaveFailedMessage(site: string): string {
    "Failed to save session for \"" + site + "\": "
  }

  function LoadedMessage(path: string): string {
    "Session loaded from: " + path
  }

  function NotFoundMessage(site: string): string {
    "Session file not found for \"" + site + "\". A fresh session will be used."
  }

  function LoadFailedMessage(site: string): string {
    "Failed to load session for \"" + site + "\": "
  }

  /** The calls saveSession may make. */
  predicate SaveOp(op: Op) {
    op.Cookies? || op.Mkdir? || op.WriteFile? || op.Log?
  }

  /** The calls loadSession may make; it never logs at the success level. */
  predicate LoadOp(op: Op) {
    op.Exists? || op.ReadFile? || op.AddCookies? || (op.Log? && op.level != Success)
  }

  /**
   * saveSession(context, site), with path = getSessionFilePath(site): read the
   * cookies, create the file's directory, write the cookies as JSON, log
   * where; the first call that throws ends it with an error log instead.
   */
  function SaveSpec(w: World, o: Oracle, site: string, path: string): (r: World)
    ensures Extends(w, r)
    ensures r.open == w.open && r.jar == w.jar && r.fields == w.fields && r.drawn == w.drawn
  {
    var c := Apply(w, o, Cookies);
    if !c.ok then LogAt(c.w, Error, SaveFailedMessage(site))
    else
      var m := Apply(c.w, o, Mkdir(Dirname(path)));
      if !m.ok then LogAt(m.w, Error, SaveFailedMessage(site))
      else
        var f := Apply(m.w, o, WriteFile(path, Serialize(w.jar)));
        if !f.ok then LogAt(f.w, Error, SaveFailedMessage(site))
        else LogAt(f.w, Info, SavedMessage(path))
  }

  /** None of the three fallible calls of saveSession throws. */
  predicate SaveSucceeds(w: World, o: Oracle, path: string) {
    var k := |w.events|;
    k !in o.faults && k + 1 !in o.faults && k + 2 !in o.faults &&
    Dirname(path) !in w.files && path !in w.dirs
  }

  /** When nothing throws, the file holds exactly the cookies the context returned, unfiltered. */
  lemma SaveWritesCookies(w: World, o: Oracle, site: string, path: string)
    requires |path| > 1
    requires SaveSucceeds(w, o, path)
    ensures var r := SaveSpec(w, o, site, path);
            r.files == w.files[path := CookieJson(w.jar)] &&
            r.dirs == w.dirs + {Dirname(path)} &&
            Since(w, r) == [Event(Cookies, true), Event(Mkdir(Dirname(path)), true),
                            Event(WriteFile(path, CookieJson(w.jar)), true),
                            Event(Log(Info, SavedMessage(path)), true)]
  {
    var c := Apply(w, o, Cookies);
    assert c.ok && c.w == w.(events := w.events + [Event(Cookies, true)]);
    var m := Apply(c.w, o, Mkdir(Dirname(path)));
    assert m.ok && m.w == c.w.(events := c.w.events + [Event(Mkdir(Dirname(path)), true)], dirs := w.dirs + {Dirname(path)});
    var f := Apply(m.w, o, WriteFile(path, Serialize(w.jar)));
    assert f.ok && f.w == m.w.(events := m.w.events + [Event(WriteFile(path, CookieJson(w.jar)), true)], files := w.files[path := CookieJson(w.jar)]);
  }

  /** When a call throws, the error is logged last and no file is written (the directory may have been made). */
  lemma SaveFailureLogged(w: World, o: Oracle, site: string, path: string)
    requires |path| > 1
    requires !SaveSucceeds(w, o, path)
    ensures var r := SaveSpec(w, o, site, path);
            var e := Since(w, r);
            r.files == w.files && r.dirs <= w.dirs + {Dirname(path)} &&
            |e| > 0 && e[|e| - 1] == Event(Log(Error, SaveFailedMessage(site)), true) &&
            Event(Log(Info, SavedMessage(path)), true) !in e
  {
    var k := |w.events|;
    var e: seq<Event>;
    if k in o.faults {
      e := SaveFailsAtCookies(w, o, site, path);
    } else if k + 1 in o.faults || Dirname(path) in w.files {
      e := SaveFailsAtMkdir(w, o, site, path);
    } else {
      e := SaveFailsAtWrite(w, o, site, path);
    }
  }

  lemma SaveFailsAtCookies(w: World, o: Oracle, site: string, path: string) returns (e: seq<Event>)
    requires |w.events| in o.faults
    ensures var r := SaveSpec(w, o, site, path);
            r.files == w.files && r.dirs == w.dirs &&
            Since(w, r) == e == [Event(Cookies, false), Event(Log(Error, SaveFailedMessage(site)), true)]
  {
    e := [Event(Cookies, false), Event(Log(Error, SaveFailedMessage(site)), true)];
  }

  lemma SaveFailsAtMkdir(w: World, o: Oracle, site: string, path: string) returns (e: seq<Event>)
    requires |w.events| !in o.faults
    requires |w.events| + 1 in o.faults || Dirname(path) in w.files
    ensures var r := SaveSpec(w, o, site, path);
            r.files == w.files && r.dirs == w.dirs &&
            Since(w, r) == e == [Event(Cookies, true), Event(Mkdir(Dirname(path)), false),
                                 Event(Log(Error, SaveFailedMessage(site)), true)]
  {
    e := [Event(Cookies, true), Event(Mkdir(Dirname(path)), false), Event(Log(Error, SaveFailedMessage(site)), true)];
    var c := Apply(w, o, Cookies);
    assert c.w == w.(events := w.events + [Event(Cookies, true)]);
  }

  lemma SaveFailsAtWrite(w: World, o: Oracle, site: string, path: string) returns (e: seq<Event>)
    requires |path| > 1
    requires |w.events| !in o.faults && |w.events| + 1 !in o.faults && Dirname(path) !in w.files
    requires |w.events| + 2 in o.faults || path in w.dirs
    ensures var r := SaveSpec(w, o, site, path);
            r.files == w.files && r.dirs == w.dirs + {Dirname(path)} &&
            Since(w, r) == e == [Event(Cookies, true), Event(Mkdir(Dirname(path)), true),
                                 Event(WriteFile(path, CookieJson(w.jar)), false),
                                 Event(Log(Error, SaveFailedMessage(site)), true)]
  {
    e := [Event(Cookies, true), Event(Mkdir(Dirname(path)), true), Event(WriteFile(path, CookieJson(w.jar)), false),
          Event(Log(Error, SaveFailedMessage(site)), true)];
    var c := Apply(w, o, Cookies);
    assert c.w == w.(events := w.events + [Event(Cookies, true)]);
    var m := Apply(c.w, o, Mkdir(Dirname(path)));
    assert m.w == c.w.(events := c.w.events + [Event(Mkdir(Dirname(path)), true)], dirs := w.dirs + {Dirname(path)});
  }

  /** The file loadSession reads is there and parses, and none of its fallible calls throws. */
  predicate LoadSucceeds(w: World, o: Oracle, path: string) {
    var k := |w.events|;
    path in w.files && Parse(w.files[path]).Some? && k + 1 !in o.faults && k + 2 !in o.faults
  }

  /**
   * loadSession(context, site), with path = getSessionFilePath(site): when
   * nothing is at the path, warn and return; otherwise read the file, parse it
   * and add the cookies to the context, logging an error instead at the first
   * step that throws.
   */
  function LoadSpec(w: World, o: Oracle, site: string, path: string): (r: World)
    ensures Extends(w, r)
    ensures r.open == w.open && r.fields == w.fields && r.files == w.files && r.dirs == w.dirs
    ensures r.drawn == w.drawn
  {
    var x := Note(w, Exists(path));
    if !Present(w, path) then LogAt(x, Warn, NotFoundMessage(site))
    else
      var rd := Apply(x, o, ReadFile(path));
      if !rd.ok then LogAt(rd.w, Error, LoadFailedMessage(site))
      else
        match Parse(w.files[path])
        case None => LogAt(rd.w, Error, LoadFailedMessage(site))
        case Some(cookies) =>
          var a := Apply(rd.w, o, AddCookies(cookies));
          if !a.ok then LogAt(a.w, Error, LoadFailedMessage(site))
          else LogAt(a.w, Info, LoadedMessage(path))
  }

  /** With nothing at the path only the check and the warning happen: no cookie is added. */
  lemma LoadWithoutFile(w: World, o: Oracle, site: string, path: string)
    requires !Present(w, path)
    ensures LoadSpec(w, o, site, path) ==
            w.(events := w.events + [Event(Exists(path), true), Event(Log(Warn, NotFoundMessage(site)), true)])
  {
  }

  /** A readable, parsable file's cookies are passed to addCookies as they are. */
  lemma LoadInjectsCookies(w: World, o: Oracle, site: string, path: string)
    requires LoadSucceeds(w, o, path)
    ensures var cookies := Parse(w.files[path]).value;
            var r := LoadSpec(w, o, site, path);
            r.jar == w.jar + cookies &&
            Since(w, r) == [Event(Exists(path), true), Event(ReadFile(path), true),
                            Event(AddCookies(cookies), true), Event(Log(Info, LoadedMessage(path)), true)]
  {
    var cookies := Parse(w.files[path]).value;
    var x := Note(w, Exists(path));
    var rd := Apply(x, o, ReadFile(path));
    assert rd.ok && rd.w == x.(events := x.events + [Event(ReadFile(path), true)]);
    var a := Apply(rd.w, o, AddCookies(cookies));
    assert a.ok && a.w == rd.w.(events := rd.w.events + [Event(AddCookies(cookies), true)], jar := w.jar + cookies);
  }

  /** A file that cannot be read, parsed or added is logged and swallowed; the context keeps its cookies. */
  lemma LoadFailureSwallowed(w: World, o: Oracle, site: string, path: string)
    requires Present(w, path) && !LoadSucceeds(w, o, path)
    ensures var r := LoadSpec(w, o, site, path);
            var e := Since(w, r);
            r.jar == w.jar &&
            |e| > 0 && e[|e| - 1] == Event(Log(Error, LoadFailedMessage(site)), true) &&
            Event(Log(Info, LoadedMessage(path)), true) !in e
  {
    var e: seq<Event>;
    if |w.events| + 1 in o.faults || path !in w.files {
      e := LoadFailsAtRead(w, o, site, path);
    } else if Parse(w.files[path]).None? {
      e := LoadFailsAtParse(w, o, site, path);
    } else {
      e := LoadFailsAtAdd(w, o, site, path);
    }
  }

  lemma LoadFailsAtRead(w: World, o: Oracle, site: string, path: string) returns (e: seq<Event>)
    requires Present(w, path)
    requires |w.events| + 1 in o.faults || path !in w.files
    ensures var r := LoadSpec(w, o, site, path);
            r.jar == w.jar &&
            Since(w, r) == e == [Event(Exists(path), true), Event(ReadFile(path), false),
                                 Event(Log(Error, LoadFailedMessage(site)), true)]
  {
    e := [Event(Exists(path), true), Event(ReadFile(path), false), Event(Log(Error, LoadFailedMessage(site)), true)];
  }

  lemma LoadFailsAtParse(w: World, o: Oracle, site: string, path: string) returns (e: seq<Event>)
    requires |w.events| + 1 !in o.faults && path in w.files && Parse(w.files[path]).None?
    ensures var r := LoadSpec(w, o, site, path);
            r.jar == w.jar &&
            Since(w, r) == e == [Event(Exists(path), true), Event(ReadFile(path), true),
                                 Event(Log(Error, LoadFailedMessage(site)), true)]
  {
    e := [Event(Exists(path), true), Event(ReadFile(path), true), Event(Log(Error, LoadFailedMessage(site)), true)];
    var x := Note(w, Exists(path));
    var rd := Apply(x, o, ReadFile(path));
    assert rd.ok && rd.w == x.(events := x.events + [Event(ReadFile(path), true)]);
  }

  lemma LoadFailsAtAdd(w: World, o: Oracle, site: string, path: string) returns (e: seq<Event>)
    requires |w.events| + 1 !in o.faults && path in w.files && Parse(w.files[path]).Some?
    requires |w.events| + 2 in o.faults
    ensures var r := LoadSpec(w, o, site, path);
            r.jar == w.jar &&
            Since(w, r) == e == [Event(Exists(path), true), Event(ReadFile(path), true),
                                 Event(AddCookies(Parse(w.files[path]).value), false),
                                 Event(Log(Error, LoadFailedMessage(site)), true)]
  {
    var cookies := Parse(w.files[path]).value;
    e := [Event(Exists(path), true), Event(ReadFile(path), true), Event(AddCookies(cookies), false),
          Event(Log(Error, LoadFailedMessage(site)), true)];
    var x := Note(w, Exists(path));
    var rd := Apply(x, o, ReadFile(path));
    assert rd.ok && rd.w == x.(events := x.events + [Event(ReadFile(path), true)]);
  }

  /**
   * saveSession only reads the cookies, makes directories, writes files and
   * logs; it reads the cookies exactly once, and never checks for, reads or
   * screenshots a file, nor launches or closes the browser.
   */
  lemma SaveFootprint(w: World, o: Oracle, site: string, path: string)
    requires |path| > 1
    ensures var e := Since(w, SaveSpec(w, o, site, path));
            SaveTally(e) && forall x :: x in e ==> SaveOp(x.op)
  {
    var k := |w.events|;
    var e: seq<Event>;
    if SaveSucceeds(w, o, path) {
      SaveWritesCookies(w, o, site, path);
      e := Since(w, SaveSpec(w, o, site, path));
      SaveShape4(e[0], e[1], e[2], e[3]);
    } else if k in o.faults {
      e := SaveFailsAtCookies(w, o, site, path);
      SaveShape2(e[0], e[1]);
    } else if k + 1 in o.faults || Dirname(path) in w.files {
      e := SaveFailsAtMkdir(w, o, site, path);
      SaveShape3(e[0], e[1], e[2]);
    } else {
      e := SaveFailsAtWrite(w, o, site, path);
      SaveShape4(e[0], e[1], e[2], e[3]);
    }
  }

  /**
   * loadSession only checks for, reads and logs the file, and adds cookies. Its
   * first call is the check of the session file, the only check it makes; it
   * never reads the context's cookies, writes a file or takes a screenshot,
   * nor launches or closes the browser.
   */
  lemma LoadFootprint(w: World, o: Oracle, site: string, path: string)
    ensures var e := Since(w, LoadSpec(w, o, site, path));
            |e| > 0 && e[0] == Event(Exists(path), true) && LoadTally(e) &&
            forall x :: x in e ==> LoadOp(x.op)
  {
    var e: seq<Event>;
    if !Present(w, path) {
      LoadWithoutFile(w, o, site, path);
      e := Since(w, LoadSpec(w, o, site, path));
      LoadShape2(e[0], e[1]);
    } else if LoadSucceeds(w, o, path) {
      LoadInjectsCookies(w, o, site, path);
      e := Since(w, LoadSpec(w, o, site, path));
      LoadShape4(e[0], e[1], e[2], e[3]);
    } else if |w.events| + 1 in o.faults || path !in w.files {
      e := LoadFailsAtRead(w, o, site, path);
      LoadShape3(e[0], e[1], e[2]);
    } else if Parse(w.files[path]).None? {
      e := LoadFailsAtParse(w, o, site, path);
      LoadShape3(e[0], e[1], e[2]);
    } else {
      e := LoadFailsAtAdd(w, o, site, path);
      LoadShape4(e[0], e[1], e[2], e[3]);
    }
  }

  /** The kinds of call counted over a whole run, for the traces saveSession leaves. */
  predicate SaveTally(e: seq<Event>) {
    Count(e, KCookies) == 1 && Count(e, KExists) == 0 && Count(e, KReadFile) == 0 &&
    Count(e, KScreenshot) == 0 && Count(e, KLaunch) == 0 && Count(e, KClose) == 0
  }

  /** The kinds of call counted over a whole run, for the traces loadSession leaves. */
  predicate LoadTally(e: seq<Event>) {
    Count(e, KExists) == 1 && Count(e, KCookies) == 0 && Count(e, KWriteFile) == 0 &&
    Count(e, KScreenshot) == 0 && Count(e, KLaunch) == 0 && Count(e, KClose) == 0
  }

  lemma SaveShape2(a: Event, b: Event)
    requires a.op.Cookies? && b.op.Log?
    ensures SaveTally([a, b])
    ensures forall x :: x in [a, b] ==> SaveOp(x.op)
  {
    Count2(a, b, KCookies);
    Count2(a, b, KExists);
    Count2(a, b, KReadFile);
    Count2(a, b, KScreenshot);
    Count2(a, b, KLaunch);
    Count2(a, b, KClose);
  }

  lemma SaveShape3(a: Event, b: Event, c: Event)
    requires a.op.Cookies? && b.op.Mkdir? && c.op.Log?
    ensures SaveTally([a, b, c])
    ensures forall x :: x in [a, b, c] ==> SaveOp(x.op)
  {
    Count3(a, b, c, KCookies);
    Count3(a, b, c, KExists);
    Count3(a, b, c, KReadFile);
    Count3(a, b, c, KScreenshot);
    Count3(a, b, c, KLaunch);
    Count3(a, b, c, KClose);
  }

  lemma SaveShape4(a: Event, b: Event, c: Event, d: Event)
    requires a.op.Cookies? && b.op.Mkdir? && c.op.WriteFile? && d.op.Log?
    ensures SaveTally([a, b, c, d])
    ensures forall x :: x in [a, b, c, d] ==> SaveOp(x.op)
  {
    Count4(a, b, c, d, KCookies);
    Count4(a, b, c, d, KExists);
    Count4(a, b, c, d, KReadFile);
    Count4(a, b, c, d, KScreenshot);
    Count4(a, b, c, d, KLaunch);
    Count4(a, b, c, d, KClose);
  }

  lemma LoadShape2(a: Event, b: Event)
    requires a.op.Exists? && b.op.Log?
    requires b.op.level != Success
    ensures LoadTally([a, b])
    ensures forall x :: x in [a, b] ==> LoadOp(x.op)
  {
    Count2(a, b, KExists);
    Count2(a, b, KCookies);
    Count2(a, b, KWriteFile);
    Count2(a, b, KScreenshot);
    Count2(a, b, KLaunch);
    Count2(a, b, KClose);
  }

  lemma LoadShape3(a: Event, b: Event, c: Event)
    requires a.op.Exists? && b.op.ReadFile? && c.op.Log?
    requires c.op.level != Success
    ensures LoadTally([a, b, c])
    ensures forall x :: x in [a, b, c] ==> LoadOp(x.op)
  {
    Count3(a, b, c, KExists);
    Count3(a, b, c, KCookies);
    Count3(a, b, c, KWriteFile);
    Count3(a, b, c, KScreenshot);
    Count3(a, b, c, KLaunch);
    Count3(a, b, c, KClose);
  }

  lemma LoadShape4(a: Event, b: Event, c: Event, d: Event)
    requires a.op.Exists? && b.op.ReadFile? && c.op.AddCookies? && d.op.Log?
    requires d.op.level != Success
    ensures LoadTally([a, b, c, d])
    ensures forall x :: x in [a, b, c, d] ==> LoadOp(x.op)
  {
    Count4(a, b, c, d, KExists);
    Count4(a, b, c, d, KCookies);
    Count4(a, b, c, d, KWriteFile);
    Count4(a, b, c, d, KScreenshot);
    Count4(a, b, c, d, KLaunch);
    Count4(a, b, c, d, KClose);
  }


  /**
   * Round trip: after a save that did not fail, a load from the same file
   * system (a later run's fresh context, say) reads the path the cookies were
   * written to and adds exactly the cookies the saving context held.
   */
  lemma SaveThenLoad(w: World, o: Oracle, site: string, path: string, w2: World, o2: Oracle)
    requires |path| > 1
    requires SaveSucceeds(w, o, path)
    requires w2.files == SaveSpec(w, o, site, path).files
    requires |w2.events| + 1 !in o2.faults && |w2.events| + 2 !in o2.faults
    ensures var l := LoadSpec(w2, o2, site, path);
            l.jar == w2.jar + w.jar &&
            Event(ReadFile(path), true) in Since(w2, l) &&
            Event(AddCookies(w.jar), true) in Since(w2, l)
  {
    SaveWritesCookies(w, o, site, path);
    assert LoadSucceeds(w2, o2, path);
    LoadInjectsCookies(w2, o2, site, path);
  }

  /** The configured directory gives "sessions/<site>.json", in the "sessions" directory when site has no '/'. */
  lemma SessionFileLocation(site: string)
    requires '/' !in site
    ensures SessionFilePath(site) == "sessions/" + site + ".json"
    ensures Dirname(SessionFilePath(site)) == "sessions"
  {
    assert '/' !in site + ".json";
    JoinShape("sessions/", site + ".json");
    DirnameOfJoin("sessions/", site + ".json");
  }

  /** Session file paths are longer than one character (so never their own directory). */
  lemma SessionFilePathLong(site: string)
    ensures |SessionFilePath(site)| > 1
  {
    JoinShape(SessionDir(SessionPathSetting), site + ".json");
  }

  /** Distinct keys without '/' never share a session file. */
  lemma SessionFileInjective(a: string, b: string)
    requires '/' !in a && '/' !in b
    requires SessionFilePath(a) == SessionFilePath(b)
    ensures a == b
  {
    JoinInjective(SessionDir(SessionPathSetting), a + ".json", b + ".json");
    assert |a| == |b|;
    assert a == (a + ".json")[..|a|] == (b + ".json")[..|b|] == b;
  }

  method SaveSession(h: Host, site: string)
    modifies h
    ensures h.State() == SaveSpec(old(h.State()), h.oracle, site, SessionFilePath(site))
  {
    var ok, cookies := h.Cookies();
    if !ok {
      h.Log(Error, SaveFailedMessage(site));
      return;
    }
    var path := SessionFilePath(site);
    ok := h.Call(Mkdir(Dirname(path)));
    if !ok {
      h.Log(Error, SaveFailedMessage(site));
      return;
    }
    ok := h.Call(WriteFile(path, Serialize(cookies)));
    if !ok {
      h.Log(Error, SaveFailedMessage(site));
      return;
    }
    h.Log(Info, SavedMessage(path));
  }

  method LoadSession(h: Host, site: string)
    modifies h
    ensures h.State() == LoadSpec(old(h.State()), h.oracle, site, SessionFilePath(site))
  {
    var path := SessionFilePath(site);
    var present := h.Exists(path);
    if !present {
      h.Log(Warn, NotFoundMessage(site));
      return;
    }
    var ok, raw := h.ReadFile(path);
    if !ok {
      h.Log(Error, LoadFailedMessage(site));
      return;
    }
    var parsed := Parse(raw);
    if parsed.None? {
      h.Log(Error, LoadFailedMessage(site));
      return;
    }
    ok := h.Call(AddCookies(parsed.value));
    if !ok {
      h.Log(Error, LoadFailedMessage(site));
      return;
    }
    h.Log(Info, LoadedMessage(path));
  }
}
