/**
 * The key-press debouncer: turns the stream of per-window symbols into
 * "Key pressed" lines, emitting a held key once and a repeated key again
 * only after a quiet window.
 */
module Debounce {
  import opened Keypad

  /**
   * The debouncer's state: the last key emitted (`None` before the first
   * one) and whether a quiet window has been seen since.
   */
  datatype KeyState = KeyState(last: Option<char>, pauseFound: bool)

  const INITIAL: KeyState := KeyState(None, false)

  /** One line of the decoder's output. */
  datatype Output = KeyPressed(c: char) | NoSignal | MultipleKeys

  /** The state after one window and the line it prints, if any. */
  datatype Transition = Transition(next: KeyState, out: Option<Output>)

  /** One window's symbol fed to the debouncer in state `st`. */
  function Step(st: KeyState, sym: Symbol): Transition
  {
    match sym
    case NoMatch => Transition(st, Some(NoSignal))
    case Quiet => Transition(st.(pauseFound := true), None)
    case Key(c) =>
      if st.last != Some(c) then Transition(KeyState(Some(c), false), Some(KeyPressed(c)))
      else if st.pauseFound then Transition(KeyState(Some(c), false), Some(KeyPressed(c)))
      else Transition(st, None)
  }

  function Lines(o: Option<Output>): seq<Output>
  {
    if o.Some? then [o.value] else []
  }

  /** The state after a stream of symbols and every line printed on the way. */
  datatype Trace = Trace(state: KeyState, out: seq<Output>)

  function Run(st: KeyState, syms: seq<Symbol>): Trace
    decreases |syms|
  {
    if |syms| == 0 then Trace(st, [])
    else
      var t := Run(st, syms[..|syms| - 1]);
      var s := Step(t.state, syms[|syms| - 1]);
      Trace(s.next, t.out + Lines(s.out))
  }

  /** The keys among the output lines, in order. */
  function Keys(out: seq<Output>): seq<char>
    decreases |out|
  {
    if |out| == 0 then []
    else Keys(out[..|out| - 1]) + (if out[|out| - 1].KeyPressed? then [out[|out| - 1].c] else [])
  }

  lemma {:induction false} KeysAppend(a: seq<Output>, b: seq<Output>)
    ensures Keys(a + b) == Keys(a) + Keys(b)
    decreases |b|
  {
    if |b| > 0 {
      var b' := b[..|b| - 1];
      assert (a + b)[..|a + b| - 1] == a + b';
      KeysAppend(a, b');
    } else {
      assert a + b == a;
    }
  }

  /**
   * A key window: the key is emitted iff it differs from the last emitted
   * key or a pause came since; either way the key becomes the last key and
   * the pause is cleared (a suppressed key leaves the state as it was, which
   * is already that).
   */
  lemma StepKey(st: KeyState, c: char)
    ensures Step(st, Key(c)).next == KeyState(Some(c), false)
    ensures Step(st, Key(c)).out.Some? <==> st.last != Some(c) || st.pauseFound
    ensures Step(st, Key(c)).out.Some? ==> Step(st, Key(c)).out.value == KeyPressed(c)
  {
  }

  /**
   * A quiet window sets the pause flag and keeps the last key, also before
   * any key was emitted; a no-match window prints its line and changes
   * nothing.
   */
  lemma StepNonKey(st: KeyState)
    ensures Step(st, Quiet) == Transition(KeyState(st.last, true), None)
    ensures Step(st, NoMatch) == Transition(st, Some(NoSignal))
  {
  }

  /** Running two streams one after the other is running their concatenation. */
  lemma {:induction false} RunConcat(st: KeyState, a: seq<Symbol>, b: seq<Symbol>)
    ensures Run(st, a + b).state == Run(Run(st, a).state, b).state
    ensures Run(st, a + b).out == Run(st, a).out + Run(Run(st, a).state, b).out
    decreases |b|
  {
    if |b| == 0 {
      assert a + b == a;
    } else {
      var b' := b[..|b| - 1];
      assert (a + b)[..|a + b| - 1] == a + b';
      assert (a + b)[|a + b| - 1] == b[|b| - 1];
      RunConcat(st, a, b');
    }
  }

  function Repeat(sym: Symbol, n: nat): (r: seq<Symbol>)
    ensures |r| == n && forall i :: 0 <= i < n ==> r[i] == sym
  {
    seq(n, _ => sym)
  }

  /**
   * A key held over `n` consecutive windows is emitted at most once: once
   * when it is new or follows a pause, never when it continues the last
   * emitted key.
   */
  lemma {:induction false} HeldKey(st: KeyState, c: char, n: nat)
    requires n >= 1
    ensures Run(st, Repeat(Key(c), n)).state == KeyState(Some(c), false)
    ensures Run(st, Repeat(Key(c), n)).out ==
      if st.last == Some(c) && !st.pauseFound then [] else [KeyPressed(c)]
  {
    var r := Repeat(Key(c), n);
    assert r[..n - 1] == Repeat(Key(c), n - 1);
    if n > 1 {
      HeldKey(st, c, n - 1);
    } else {
      assert r[..0] == [];
    }
  }

  /** From the start, a run of identical key windows emits that key once. */
  lemma HeldKeyFromStart(c: char, n: nat)
    requires n >= 1
    ensures Run(INITIAL, Repeat(Key(c), n)).out == [KeyPressed(c)]
  {
    HeldKey(INITIAL, c, n);
  }

  /**
   * A key held, released into `q` quiet windows and pressed again is
   * emitted again.
   */
  lemma {:induction false} PauseThenRepeat(st: KeyState, c: char, n: nat, q: nat)
    requires n >= 1 && q >= 1
    ensures Keys(Run(st, Repeat(Key(c), n) + Repeat(Quiet, q) + [Key(c)]).out) ==
      (if st.last == Some(c) && !st.pauseFound then [] else [c]) + [c]
  {
    var held, quiet := Repeat(Key(c), n), Repeat(Quiet, q);
    var o1 := Run(st, held).out;
    var paused := KeyState(Some(c), true);
    assert Run(st, held + quiet) == Trace(paused, o1) by {
      HeldKey(st, c, n);
      QuietRun(KeyState(Some(c), false), q);
      RunConcat(st, held, quiet);
    }
    assert Run(st, held + quiet + [Key(c)]).out == o1 + [KeyPressed(c)] by {
      RunConcat(st, held + quiet, [Key(c)]);
      SingleKeyWindow(paused, c);
    }
    assert Keys(o1 + [KeyPressed(c)]) == Keys(o1) + [c] by {
      KeysAppend(o1, [KeyPressed(c)]);
      assert [KeyPressed(c)][..0] == [];
    }
    assert Keys(o1) == if st.last == Some(c) && !st.pauseFound then [] else [c] by {
      HeldKey(st, c, n);
      if o1 != [] {
        assert o1 == [KeyPressed(c)] && o1[..0] == [];
      }
    }
  }

  /** A single key window after a pause emits the key. */
  lemma SingleKeyWindow(st: KeyState, c: char)
    requires st.pauseFound
    ensures Run(st, [Key(c)]).out == [KeyPressed(c)]
  {
    assert [Key(c)][..0] == [];
  }

  /** Quiet windows only set the pause flag and print nothing. */
  lemma {:induction false} QuietRun(st: KeyState, q: nat)
    requires q >= 1
    ensures Run(st, Repeat(Quiet, q)) == Trace(KeyState(st.last, true), [])
  {
    var r := Repeat(Quiet, q);
    assert r[..q - 1] == Repeat(Quiet, q - 1);
    if q > 1 {
      QuietRun(st, q - 1);
    } else {
      assert r[..0] == [];
    }
  }

  /** `[s, s, Quiet, s]` from the start emits `s` twice. */
  lemma PauseThenRepeatFromStart(c: char)
    ensures Keys(Run(INITIAL, [Key(c), Key(c), Quiet, Key(c)]).out) == [c, c]
  {
    PauseThenRepeat(INITIAL, c, 2, 1);
    assert Repeat(Key(c), 2) + Repeat(Quiet, 1) + [Key(c)] == [Key(c), Key(c), Quiet, Key(c)];
  }

  /**
   * A change of key ends the previous hold without a quiet window:
   * `n` windows of `c1` then `c2` emit `c1` then `c2` from the start.
   */
  lemma KeyChange(c1: char, c2: char, n: nat)
    requires c1 != c2 && n >= 1
    ensures Run(INITIAL, Repeat(Key(c1), n) + [Key(c2)]).out == [KeyPressed(c1), KeyPressed(c2)]
  {
    HeldKey(INITIAL, c1, n);
    RunConcat(INITIAL, Repeat(Key(c1), n), [Key(c2)]);
    assert [Key(c2)][..0] == [];
  }

  /**
   * Invariant: the state's last key is the last key emitted, or the start
   * state's when nothing was emitted.
   */
  lemma {:induction false} LastKeyIsLastEmitted(st: KeyState, syms: seq<Symbol>)
    ensures var t := Run(st, syms);
      t.state.last == if Keys(t.out) == [] then st.last else Some(Keys(t.out)[|Keys(t.out)| - 1])
    decreases |syms|
  {
    if |syms| > 0 {
      var t := Run(st, syms[..|syms| - 1]);
      LastKeyIsLastEmitted(st, syms[..|syms| - 1]);
      var s := Step(t.state, syms[|syms| - 1]);
      assert Run(st, syms) == Trace(s.next, t.out + Lines(s.out));
      KeysAppend(t.out, Lines(s.out));
      StepLastKey(t.state, syms[|syms| - 1]);
    }
  }

  /**
   * One step: either it prints the key that becomes the last key, or it
   * prints no key and keeps the last key.
   */
  lemma StepLastKey(st: KeyState, sym: Symbol)
    ensures var s := Step(st, sym);
      if s.out.Some? && s.out.value.KeyPressed? then
        Keys(Lines(s.out)) == [s.out.value.c] && s.next.last == Some(s.out.value.c)
      else
        Keys(Lines(s.out)) == [] && s.next.last == st.last
  {
    var s := Step(st, sym);
    if s.out.Some? {
      assert Lines(s.out)[..0] == [];
    }
  }

  /**
   * Before any key is emitted the pause flag does not matter: the source
   * sets it on a quiet window even then, and the output is the same as if
   * it had not.
   */
  lemma {:induction false} EarlyPauseUnobservable(syms: seq<Symbol>)
    ensures Run(KeyState(None, true), syms).out == Run(INITIAL, syms).out
  {
    EarlyPauseAgree(syms);
  }

  lemma {:induction false} EarlyPauseAgree(syms: seq<Symbol>)
    ensures var a, b := Run(KeyState(None, true), syms), Run(INITIAL, syms);
      a.out == b.out && (a.state == b.state || (a.state.last.None? && b.state.last.None?))
    decreases |syms|
  {
    if |syms| > 0 {
      EarlyPauseAgree(syms[..|syms| - 1]);
    }
  }

  /** The debouncer as a session object, one per decoded stream. */
  class Debouncer {
    var lastKey: Option<char>
    var pauseFound: bool

    function State(): KeyState
      reads this
    {
      KeyState(lastKey, pauseFound)
    }

    constructor ()
      ensures State() == INITIAL
    {
      lastKey := None;
      pauseFound := false;
    }

    /** Feed one window's symbol; returns the line printed for it, if any. */
    method Feed(sym: Symbol) returns (out: Option<Output>)
      modifies this
      ensures Transition(State(), out) == Step(old(State()), sym)
    {
      out := None;
      match sym {
        case NoMatch =>
          out := Some(NoSignal);
        case Quiet =>
          pauseFound := true;
        case Key(c) =>
          if lastKey != Some(c) {
            out := Some(KeyPressed(c));
            lastKey := Some(c);
            pauseFound := false;
          } else if pauseFound {
            out := Some(KeyPressed(c));
            lastKey := Some(c);
            pauseFound := false;
          }
      }
    }
  }
}
