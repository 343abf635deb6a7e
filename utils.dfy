/**
 * Human-timing helpers: a random pause, and typing text one character at a
 * time with a random keystroke delay and a random pause after every character.
 */
module Utils {
  import opened Environment

  /** The pause randomDelay(50, 150) that follows every keystroke. */
  const PauseMin: int := 50
  const PauseMax: int := 150

  /** Math.floor(u * (max - min + 1)) + min, for u = Math.random(). */
  function DelayMs(min: int, max: int, u: Unit): int {
    (u * (max - min + 1) as real).Floor + min
  }

  /** With min <= max the delay always lies in [min, max] ... */
  lemma DelayWithinBounds(min: int, max: int, u: Unit)
    requires min <= max
    ensures min <= DelayMs(min, max, u) <= max
  {
    var n := (max - min + 1) as real;
    assert 0.0 <= u * n by {
      assert 0.0 <= u && 0.0 < n;
    }
    assert u * n < n by {
      assert n - u * n == (1.0 - u) * n;
      assert 0.0 < (1.0 - u) * n;
    }
  }

  /** ... and every value in [min, max] is the delay for some Math.random() value. */
  lemma DelayCoversRange(min: int, max: int, d: int)
    requires min <= d <= max
    ensures exists u: Unit :: DelayMs(min, max, u) == d
  {
    var n := (max - min + 1) as real;
    var k := (d - min) as real;
    var u: Unit := k / n;
    assert u * n == k;
    assert DelayMs(min, max, u) == d;
  }

  /**
   * The bounds are not clamped: with max < min the delay is never in a
   * valid range; it lies above max, in (max, min].
   */
  lemma DelayNotClamped(min: int, max: int, u: Unit)
    requires max < min
    ensures max < DelayMs(min, max, u) <= min
  {
    var m := max - min + 1;
    var n := m as real;
    var x := u * n;
    ProductNonnegative(u, -n);
    assert x == -(u * (-n));
    ProductNonnegative(1.0 - u, -n);
    assert x - n == (1.0 - u) * (-n);
    var f := x.Floor;
    assert f as real <= x < f as real + 1.0;
    assert f <= 0;
    assert m <= f;
  }

  lemma ProductNonnegative(a: real, b: real)
    requires 0.0 <= a && 0.0 <= b
    ensures 0.0 <= a * b
  {
  }

  /** randomDelay(min, max): draw Math.random() and sleep that long. */
  function DelaySpec(w: World, o: Oracle, min: int := 300, max: int := 1500): (r: World)
    ensures Extends(w, r) && Since(w, r) == [Event(Sleep(DelayMs(min, max, NextRandom(w, o))), true)]
    ensures r == w.(events := r.events, drawn := w.drawn + 1)
  {
    Note(AfterDraw(w), Sleep(DelayMs(min, max, NextRandom(w, o))))
  }

  method RandomDelay(h: Host, min: int := 300, max: int := 1500)
    modifies h
    ensures h.State() == DelaySpec(old(h.State()), h.oracle, min, max)
  {
    var u := h.Random();
    var delay := DelayMs(min, max, u);
    h.Do(Sleep(delay));
  }

  function TypingErrorMessage(selector: string): string {
    "\U{274C} Error typing into selector \"" + selector + "\":"
  }

  /**
   * One pass of typeWithDelay's loop: draw the keystroke delay, page.type the
   * character with it, then randomDelay(50, 150). A keystroke that throws
   * ends the pass at once.
   */
  function KeystrokeSpec(w: World, o: Oracle, selector: string, c: char, charDelayMin: int, charDelayMax: int): (r: Outcome)
    ensures Extends(w, r.w)
    ensures r.ok <==> |w.events| !in o.faults
    ensures r.ok ==> Since(w, r.w) == [Event(Type(selector, c, DelayMs(charDelayMin, charDelayMax, o.random(w.drawn))), true),
                                       Event(Sleep(DelayMs(PauseMin, PauseMax, o.random(w.drawn + 1))), true)]
    ensures !r.ok ==> Since(w, r.w) == [Event(Type(selector, c, DelayMs(charDelayMin, charDelayMax, o.random(w.drawn))), false)]
    ensures r.w.drawn == w.drawn + (if r.ok then 2 else 1)
    ensures r.w.open == w.open && r.w.jar == w.jar && r.w.files == w.files && r.w.dirs == w.dirs
    ensures Field(r.w, selector) == Field(w, selector) + (if r.ok then [c] else [])
    ensures forall s :: s != selector ==> Field(r.w, s) == Field(w, s)
  {
    var delay := DelayMs(charDelayMin, charDelayMax, NextRandom(w, o));
    var t := Apply(AfterDraw(w), o, Type(selector, c, delay));
    if !t.ok then t else Outcome(DelaySpec(t.w, o, PauseMin, PauseMax), true)
  }

  /**
   * typeWithDelay(page, selector, text, charDelayMin, charDelayMax): the
   * loop's passes, one per character; the first keystroke that throws ends
   * the loop, and the catch block reports the error on the console and
   * rethrows it (ok is false). Nothing typed is taken back.
   */
  function TypeSpec(w: World, o: Oracle, selector: string, text: string,
                    charDelayMin: int := 100, charDelayMax: int := 300): (r: Outcome)
    ensures Extends(w, r.w)
    ensures r.w.open == w.open && r.w.jar == w.jar && r.w.files == w.files && r.w.dirs == w.dirs
    ensures forall s :: s != selector ==> Field(r.w, s) == Field(w, s)
    ensures forall e :: e in Since(w, r.w) ==>
              (e.op.Type? && e.op.selector == selector) || e.op.Sleep? || e.op.ConsoleError?
    decreases |text|
  {
    if text == [] then Outcome(w, true)
    else
      var k := KeystrokeSpec(w, o, selector, text[0], charDelayMin, charDelayMax);
      if !k.ok then
        Outcome(Note(k.w, ConsoleError(TypingErrorMessage(selector))), false)
      else
        var rest := TypeSpec(k.w, o, selector, text[1..], charDelayMin, charDelayMax);
        SinceStep(w, k.w, rest.w);
        rest
  }

  method TypeWithDelay(h: Host, selector: string, text: string,
                       charDelayMin: int := 100, charDelayMax: int := 300) returns (ok: bool)
    modifies h
    ensures var r := TypeSpec(old(h.State()), h.oracle, selector, text, charDelayMin, charDelayMax);
            h.State() == r.w && ok == r.ok
  {
    var i := 0;
    while i < |text|
      invariant 0 <= i <= |text|
      invariant TypeSpec(old(h.State()), h.oracle, selector, text, charDelayMin, charDelayMax)
             == TypeSpec(h.State(), h.oracle, selector, text[i..], charDelayMin, charDelayMax)
    {
      var u := h.Random();
      var delay := DelayMs(charDelayMin, charDelayMax, u);
      var typed := h.Call(Type(selector, text[i], delay));
      if !typed {
        h.Do(ConsoleError(TypingErrorMessage(selector)));
        return false;
      }
      RandomDelay(h, PauseMin, PauseMax);
      assert text[i..][1..] == text[i + 1..];
      i := i + 1;
    }
    return true;
  }

  /**
   * How many leading characters of a text of length len get typed when the
   * first keystroke is made at trace position start (keystrokes are two
   * positions apart: each is followed by its pause).
   */
  function Typed(faults: set<nat>, start: nat, len: nat): (n: nat)
    ensures n <= len
    ensures forall j :: 0 <= j < n ==> start + 2 * j !in faults
    ensures n < len ==> start + 2 * n in faults
    decreases len
  {
    if len == 0 || start in faults then 0
    else
      var m := Typed(faults, start + 2, len - 1);
      TypedShift(faults, start, m);
      1 + m
  }

  lemma TypedShift(faults: set<nat>, start: nat, m: nat)
    requires start !in faults
    requires forall j :: 0 <= j < m ==> (start + 2) + 2 * j !in faults
    ensures forall j :: 0 <= j < m + 1 ==> start + 2 * j !in faults
  {
    forall j | 0 <= j < m + 1
      ensures start + 2 * j !in faults
    {
      if j > 0 {
        assert start + 2 * j == (start + 2) + 2 * (j - 1);
      }
    }
  }

  /** The keys of the keystrokes on a selector that went through, in order. */
  function Keys(evs: seq<Event>, selector: string): string {
    if evs == [] then ""
    else
      (if evs[0].ok && evs[0].op.Type? && evs[0].op.selector == selector then [evs[0].op.key] else "")
      + Keys(evs[1..], selector)
  }

  lemma {:induction false} KeysAppend(a: seq<Event>, b: seq<Event>, selector: string)
    ensures Keys(a + b, selector) == Keys(a, selector) + Keys(b, selector)
  {
    if a == [] {
      assert a + b == b;
    } else {
      assert (a + b)[1..] == a[1..] + b;
      KeysAppend(a[1..], b, selector);
    }
  }

  /**
   * One unfolding of TypeSpec when the first keystroke goes through: p is the
   * world after that keystroke and its pause.
   */
  lemma TypeSpecStep(w: World, o: Oracle, selector: string, text: string, charDelayMin: int, charDelayMax: int)
    returns (p: World)
    requires text != []
    requires |w.events| !in o.faults
    ensures var k := KeystrokeSpec(w, o, selector, text[0], charDelayMin, charDelayMax);
            k.ok && p == k.w
    ensures TypeSpec(w, o, selector, text, charDelayMin, charDelayMax)
         == TypeSpec(p, o, selector, text[1..], charDelayMin, charDelayMax)
  {
    p := KeystrokeSpec(w, o, selector, text[0], charDelayMin, charDelayMax).w;
  }

  lemma PrefixCons(text: string, m: nat)
    requires m < |text|
    ensures text[..m + 1] == [text[0]] + text[1..][..m]
  {
  }

  lemma AppendPrefixCons(before: string, after: string, text: string, m: nat)
    requires m < |text|
    requires after == before + [text[0]] + text[1..][..m]
    ensures after == before + text[..m + 1]
  {
    PrefixCons(text, m);
  }

  /** One unfolding of TypeSpec when the first keystroke throws. */
  lemma TypeSpecFail(w: World, o: Oracle, selector: string, text: string, charDelayMin: int, charDelayMax: int)
    requires text != []
    requires |w.events| in o.faults
    ensures var r := TypeSpec(w, o, selector, text, charDelayMin, charDelayMax);
            !r.ok && Field(r.w, selector) == Field(w, selector) &&
            Since(w, r.w) == [Event(Type(selector, text[0], DelayMs(charDelayMin, charDelayMax, NextRandom(w, o))), false),
                              Event(ConsoleError(TypingErrorMessage(selector)), true)]
  {
  }

  /**
   * e holds one keystroke of each key on the selector, in order, each one
   * successful and followed by exactly one pause.
   */
  predicate Keystrokes(e: seq<Event>, selector: string, keys: string)
    decreases keys
  {
    if keys == [] then e == []
    else
      |e| >= 2 && e[0].ok && e[0].op.Type? && e[0].op.selector == selector && e[0].op.key == keys[0] &&
      e[1].ok && e[1].op.Sleep? && Keystrokes(e[2..], selector, keys[1..])
  }

  /** Keystrokes have as many pauses as keys, and the keys typed are keys. */
  lemma {:induction false} KeystrokesCount(e: seq<Event>, selector: string, keys: string)
    requires Keystrokes(e, selector, keys)
    ensures |e| == 2 * |keys|
    ensures Count(e, KType) == |keys| && Count(e, KSleep) == |keys|
    ensures Keys(e, selector) == keys
    decreases keys
  {
    if keys != [] {
      KeystrokesCount(e[2..], selector, keys[1..]);
      assert e == e[..2] + e[2..];
      CountAppend(e[..2], e[2..], KType);
      CountAppend(e[..2], e[2..], KSleep);
      KeysAppend(e[..2], e[2..], selector);
      assert e[..2][1..][1..] == [];
    }
  }

  lemma {:induction false} KeystrokesAppend(a: seq<Event>, b: seq<Event>, selector: string, keys: string, more: string)
    requires Keystrokes(a, selector, keys) && Keystrokes(b, selector, more)
    ensures Keystrokes(a + b, selector, keys + more)
    decreases keys
  {
    if keys == [] {
      assert a + b == b;
      assert keys + more == more;
    } else {
      KeystrokesAppend(a[2..], b, selector, keys[1..], more);
      assert (a + b)[2..] == a[2..] + b;
      assert (keys + more)[1..] == keys[1..] + more;
    }
  }

  /** The keystroke of key that threw, and the console error that reports it. */
  predicate FailedKeystroke(e: seq<Event>, selector: string, key: char) {
    |e| == 2 && !e[0].ok && e[0].op.Type? && e[0].op.selector == selector && e[0].op.key == key &&
    e[1] == Event(ConsoleError(TypingErrorMessage(selector)), true)
  }

  /**
   * The trace of a typeWithDelay call that typed the first n characters of
   * text: their keystrokes, each followed by its pause; then either nothing
   * more (the call returns normally, n == |text|) or the keystroke of text[n]
   * that threw and the console error reporting it (the call rethrows).
   */
  predicate TypingTrace(e: seq<Event>, selector: string, text: string, n: nat, ok: bool) {
    n <= |text| && (ok <==> n == |text|) &&
    |e| == 2 * n + (if ok then 0 else 2) &&
    Keystrokes(e[..2 * n], selector, text[..n]) &&
    (!ok ==> FailedKeystroke(e[2 * n..], selector, text[n]))
  }

  /** typeWithDelay's trace, with n = Typed(...) characters typed. */
  lemma {:induction false} TypingLayout(w: World, o: Oracle, selector: string, text: string,
                                        charDelayMin: int, charDelayMax: int)
    ensures var r := TypeSpec(w, o, selector, text, charDelayMin, charDelayMax);
            TypingTrace(Since(w, r.w), selector, text, Typed(o.faults, |w.events|, |text|), r.ok)
    decreases |text|
  {
    if text == [] {
      assert Since(w, w) == [];
    } else if |w.events| in o.faults {
      TypingLayoutFail(w, o, selector, text, charDelayMin, charDelayMax);
    } else {
      var p := TypeSpecStep(w, o, selector, text, charDelayMin, charDelayMax);
      TypingLayout(p, o, selector, text[1..], charDelayMin, charDelayMax);
      TypingLayoutStep(w, p, o, selector, text, charDelayMin, charDelayMax);
    }
  }

  lemma TypingLayoutFail(w: World, o: Oracle, selector: string, text: string, charDelayMin: int, charDelayMax: int)
    requires text != [] && |w.events| in o.faults
    ensures var r := TypeSpec(w, o, selector, text, charDelayMin, charDelayMax);
            TypingTrace(Since(w, r.w), selector, text, Typed(o.faults, |w.events|, |text|), r.ok)
  {
    var r := TypeSpec(w, o, selector, text, charDelayMin, charDelayMax);
    TypeSpecFail(w, o, selector, text, charDelayMin, charDelayMax);
    FailedTrace(Since(w, r.w), selector, text, 0, r.ok);
  }

  /** The trace from p (after the first keystroke and its pause) extends to the trace from w. */
  lemma TypingLayoutStep(w: World, p: World, o: Oracle, selector: string, text: string, charDelayMin: int, charDelayMax: int)
    requires text != [] && |w.events| !in o.faults
    requires Extends(w, p) && |p.events| == |w.events| + 2
    requires TypeSpec(w, o, selector, text, charDelayMin, charDelayMax)
          == TypeSpec(p, o, selector, text[1..], charDelayMin, charDelayMax)
    requires var h := Since(w, p);
             |h| == 2 && h[0].ok && h[0].op.Type? && h[0].op.selector == selector &&
             h[0].op.key == text[0] && h[1].ok && h[1].op.Sleep?
    requires var r := TypeSpec(p, o, selector, text[1..], charDelayMin, charDelayMax);
             TypingTrace(Since(p, r.w), selector, text[1..], Typed(o.faults, |p.events|, |text| - 1), r.ok)
    ensures var r := TypeSpec(w, o, selector, text, charDelayMin, charDelayMax);
            TypingTrace(Since(w, r.w), selector, text, Typed(o.faults, |w.events|, |text|), r.ok)
  {
    var r := TypeSpec(p, o, selector, text[1..], charDelayMin, charDelayMax);
    var m := Typed(o.faults, |p.events|, |text| - 1);
    TypedStep(o.faults, |w.events|, |text|);
    SinceStep(w, p, r.w);
    LayoutCons(Since(w, p), Since(p, r.w), selector, text, m, r.ok);
  }

  lemma TypedStep(faults: set<nat>, start: nat, len: nat)
    requires len > 0 && start !in faults
    ensures Typed(faults, start, len) == 1 + Typed(faults, start + 2, len - 1)
  {
  }

  lemma FailedTrace(e: seq<Event>, selector: string, text: string, n: nat, ok: bool)
    requires text != [] && n == 0 && !ok
    requires FailedKeystroke(e, selector, text[0])
    ensures TypingTrace(e, selector, text, n, ok)
  {
    assert e[..0] == [];
    assert e[0..] == e;
  }

  lemma LayoutCons(head: seq<Event>, tail: seq<Event>, selector: string, text: string, m: nat, ok: bool)
    requires text != []
    requires |head| == 2 && head[0].ok && head[0].op.Type? && head[0].op.selector == selector
    requires head[0].op.key == text[0] && head[1].ok && head[1].op.Sleep?
    requires TypingTrace(tail, selector, text[1..], m, ok)
    ensures TypingTrace(head + tail, selector, text, m + 1, ok)
  {
    var e := head + tail;
    assert e[..2 * (m + 1)] == head + tail[..2 * m];
    PrefixCons(text, m);
    assert Keystrokes(head, selector, [text[0]]) by {
      assert head[2..] == [];
    }
    KeystrokesAppend(head, tail[..2 * m], selector, [text[0]], text[1..][..m]);
    if !ok {
      assert e[2 * (m + 1)..] == tail[2 * m..];
      assert text[1..][m] == text[m + 1];
    }
  }

  /**
   * The characters that reach the field are exactly the first n of text,
   * n = Typed(...), in order, appended to what was there; the call returns
   * normally exactly when all of text was typed. A failure leaves the first n
   * characters typed (no rollback), and empty text types nothing.
   */
  lemma {:induction false} TypingAppendsPrefix(w: World, o: Oracle, selector: string, text: string,
                                               charDelayMin: int, charDelayMax: int)
    ensures var r := TypeSpec(w, o, selector, text, charDelayMin, charDelayMax);
            var n := Typed(o.faults, |w.events|, |text|);
            Field(r.w, selector) == Field(w, selector) + text[..n] &&
            (r.ok <==> n == |text|)
    decreases |text|
  {
    if text == [] {
    } else if |w.events| in o.faults {
      TypeSpecFail(w, o, selector, text, charDelayMin, charDelayMax);
    } else {
      var p := TypeSpecStep(w, o, selector, text, charDelayMin, charDelayMax);
      TypingAppendsPrefix(p, o, selector, text[1..], charDelayMin, charDelayMax);
      AppendsPrefixStep(w, p, o, selector, text, charDelayMin, charDelayMax);
    }
  }

  /** The field contents from p (after the first keystroke and its pause) extend to those from w. */
  lemma AppendsPrefixStep(w: World, p: World, o: Oracle, selector: string, text: string,
                          charDelayMin: int, charDelayMax: int)
    requires text != [] && |w.events| !in o.faults
    requires |p.events| == |w.events| + 2 && Field(p, selector) == Field(w, selector) + [text[0]]
    requires TypeSpec(w, o, selector, text, charDelayMin, charDelayMax)
          == TypeSpec(p, o, selector, text[1..], charDelayMin, charDelayMax)
    requires var r := TypeSpec(p, o, selector, text[1..], charDelayMin, charDelayMax);
             var m := Typed(o.faults, |p.events|, |text| - 1);
             Field(r.w, selector) == Field(p, selector) + text[1..][..m] && (r.ok <==> m == |text| - 1)
    ensures var r := TypeSpec(w, o, selector, text, charDelayMin, charDelayMax);
            var n := Typed(o.faults, |w.events|, |text|);
            Field(r.w, selector) == Field(w, selector) + text[..n] && (r.ok <==> n == |text|)
  {
    var r := TypeSpec(p, o, selector, text[1..], charDelayMin, charDelayMax);
    var m := Typed(o.faults, |p.events|, |text| - 1);
    TypedStep(o.faults, |w.events|, |text|);
    AppendPrefixCons(Field(w, selector), Field(r.w, selector), text, m);
  }

  /**
   * Every keystroke delay lies in [charDelayMin, charDelayMax] and every
   * pause in [50, 150], when charDelayMin <= charDelayMax.
   */
  lemma {:induction false} TypingDelaysWithinBounds(w: World, o: Oracle, selector: string, text: string,
                                                    charDelayMin: int, charDelayMax: int)
    requires charDelayMin <= charDelayMax
    ensures var r := TypeSpec(w, o, selector, text, charDelayMin, charDelayMax);
            forall e :: e in Since(w, r.w) ==>
              (e.op.Type? ==> charDelayMin <= e.op.delay <= charDelayMax) &&
              (e.op.Sleep? ==> PauseMin <= e.op.ms <= PauseMax)
    decreases |text|
  {
    if text != [] {
      DelayWithinBounds(charDelayMin, charDelayMax, NextRandom(w, o));
      if |w.events| in o.faults {
        TypeSpecFail(w, o, selector, text, charDelayMin, charDelayMax);
      } else {
        var p := TypeSpecStep(w, o, selector, text, charDelayMin, charDelayMax);
        DelayWithinBounds(PauseMin, PauseMax, o.random(w.drawn + 1));
        TypingDelaysWithinBounds(p, o, selector, text[1..], charDelayMin, charDelayMax);
      }
    }
  }
}
