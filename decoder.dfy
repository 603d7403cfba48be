/**
 * The decoding loop: cut the sample buffer into consecutive, non-overlapping
 * windows of BLOCKSIZE samples, classify each one and feed the result to
 * the debouncer, collecting the printed lines.
 */
module Decoder {
  import opened Keypad
  import opened Classifier
  import opened Debounce

  /** The sample rate the loop passes to the classifier, whatever the file's. */
  const SAMPLERATE: nat := 8000
  /** Samples per analysed window. */
  const BLOCKSIZE: nat := 200

  /** Start offsets of the windows decoded from a buffer of `n` samples. */
  function WindowOffsets(n: nat): (offs: seq<nat>)
    ensures |offs| == n / BLOCKSIZE
  {
    seq(n / BLOCKSIZE, i => i * BLOCKSIZE)
  }

  /**
   * The windows lie inside the buffer, one after the other without overlap
   * or gap, starting at 0, and together cover all of it but the trailing
   * `n % BLOCKSIZE` samples, which are never decoded.
   */
  lemma WindowsTile(n: nat)
    ensures var offs := WindowOffsets(n);
      (|offs| > 0 ==> offs[0] == 0) &&
      (forall i :: 0 <= i < |offs| - 1 ==> offs[i] + BLOCKSIZE == offs[i + 1]) &&
      (forall i :: 0 <= i < |offs| ==> offs[i] + BLOCKSIZE <= n) &&
      |offs| * BLOCKSIZE == n - n % BLOCKSIZE &&
      n - |offs| * BLOCKSIZE < BLOCKSIZE
  {
  }

  /** No two windows share a sample. */
  lemma WindowsDisjoint(n: nat, i: nat, j: nat)
    requires i < j < |WindowOffsets(n)|
    ensures WindowOffsets(n)[i] + BLOCKSIZE <= WindowOffsets(n)[j]
  {
  }

  /** Eight power values, one per target frequency. */
  type PowerVector = p: seq<real> | |p| == NUM_FREQ
    witness [0.0, 0.0, 0.0, 0.0, 0.0, 0.0, 0.0, 0.0]

  /** What classifying one window produced: its symbol and how many "multiple keys" lines. */
  datatype WindowResult = WindowResult(symbol: Symbol, reports: nat)

  function Classified(power: seq<real>): WindowResult
    requires |power| == NUM_FREQ
  {
    WindowResult(Decode(power), MultipleReports(power))
  }

  /**
   * The result of every window of `buf`, where `analyze` stands for the
   * filter bank that gives a window's eight power values.
   */
  function Results(buf: seq<real>, analyze: seq<real> -> PowerVector): (rs: seq<WindowResult>)
    ensures |rs| == |buf| / BLOCKSIZE
  {
    seq(|buf| / BLOCKSIZE, i requires 0 <= i < |buf| / BLOCKSIZE =>
      Classified(analyze(buf[i * BLOCKSIZE..i * BLOCKSIZE + BLOCKSIZE])))
  }

  function MultipleLines(n: nat): (lines: seq<Output>)
    ensures |lines| == n && forall i :: 0 <= i < n ==> lines[i] == MultipleKeys
  {
    seq(n, _ => MultipleKeys)
  }

  /**
   * Every line printed for a stream of window results: each window's
   * "multiple keys" lines, then what the debouncer prints for its symbol.
   */
  function Session(st: KeyState, rs: seq<WindowResult>): Trace
    decreases |rs|
  {
    if |rs| == 0 then Trace(st, [])
    else
      var t := Session(st, rs[..|rs| - 1]);
      var r := rs[|rs| - 1];
      var s := Step(t.state, r.symbol);
      Trace(s.next, t.out + MultipleLines(r.reports) + Lines(s.out))
  }

  function Symbols(rs: seq<WindowResult>): (syms: seq<Symbol>)
    ensures |syms| == |rs| && forall i :: 0 <= i < |rs| ==> syms[i] == rs[i].symbol
  {
    seq(|rs|, i requires 0 <= i < |rs| => rs[i].symbol)
  }

  /** The output without the "multiple keys" lines. */
  function WithoutMultiple(out: seq<Output>): seq<Output>
    decreases |out|
  {
    if |out| == 0 then []
    else WithoutMultiple(out[..|out| - 1]) + (if out[|out| - 1] == MultipleKeys then [] else [out[|out| - 1]])
  }

  lemma {:induction false} WithoutMultipleAppend(a: seq<Output>, b: seq<Output>)
    ensures WithoutMultiple(a + b) == WithoutMultiple(a) + WithoutMultiple(b)
    decreases |b|
  {
    if |b| > 0 {
      assert (a + b)[..|a + b| - 1] == a + b[..|b| - 1];
      WithoutMultipleAppend(a, b[..|b| - 1]);
    } else {
      assert a + b == a;
    }
  }

  lemma {:induction false} WithoutMultipleLines(n: nat)
    ensures WithoutMultiple(MultipleLines(n)) == []
  {
    if n > 0 {
      assert MultipleLines(n)[..n - 1] == MultipleLines(n - 1);
      WithoutMultipleLines(n - 1);
    }
  }

  /**
   * The diagnostics do not disturb the debouncer: leaving out the
   * "multiple keys" lines, the session prints exactly what the debouncer
   * prints for the stream of symbols, and ends in the same state.
   */
  lemma {:induction false} SessionIsRun(st: KeyState, rs: seq<WindowResult>)
    ensures Session(st, rs).state == Run(st, Symbols(rs)).state
    ensures WithoutMultiple(Session(st, rs).out) == Run(st, Symbols(rs)).out
    decreases |rs|
  {
    if |rs| > 0 {
      var rs' := rs[..|rs| - 1];
      SessionIsRun(st, rs');
      var syms, syms' := Symbols(rs), Symbols(rs');
      assert syms[..|syms| - 1] == syms';
      var t := Session(st, rs');
      var r := rs[|rs| - 1];
      var s := Step(t.state, r.symbol);
      assert Session(st, rs) == Trace(s.next, t.out + MultipleLines(r.reports) + Lines(s.out));
      var u := Run(st, syms');
      assert u.state == t.state;
      assert Run(st, syms) == Trace(s.next, u.out + Lines(s.out));
      WithoutMultipleStep(t.out, r.reports, s.out);
    }
  }

  /** A window's "multiple keys" lines vanish; its debouncer line stays. */
  lemma WithoutMultipleStep(out: seq<Output>, n: nat, line: Option<Output>)
    requires line != Some(MultipleKeys)
    ensures WithoutMultiple(out + MultipleLines(n) + Lines(line)) == WithoutMultiple(out) + Lines(line)
  {
    var m, l := MultipleLines(n), Lines(line);
    assert WithoutMultiple(l) == l by {
      if line.Some? {
        assert l[..0] == [];
      }
    }
    assert WithoutMultiple(out + m) == WithoutMultiple(out) by {
      WithoutMultipleAppend(out, m);
      WithoutMultipleLines(n);
      assert WithoutMultiple(out) + [] == WithoutMultiple(out);
    }
    WithoutMultipleAppend(out + m, l);
  }

  /**
   * Extending the stream by one window extends the session by the lines
   * printed for that window's powers.
   */
  lemma SessionStep(rs: seq<WindowResult>, k: nat, st: KeyState, out: seq<Output>, power: seq<real>)
    requires k < |rs| && |power| == NUM_FREQ
    requires Session(INITIAL, rs[..k]) == Trace(st, out)
    requires rs[k] == Classified(power)
    ensures var s := Step(st, Decode(power));
      Session(INITIAL, rs[..k + 1]) == Trace(s.next, out + MultipleLines(MultipleReports(power)) + Lines(s.out))
  {
    assert rs[..k + 1][..k] == rs[..k];
  }

  /** The `k`-th result is that of the window at the `k`-th offset. */
  lemma ResultAt(buf: seq<real>, analyze: seq<real> -> PowerVector, k: nat)
    requires k < |buf| / BLOCKSIZE
    ensures k * BLOCKSIZE + BLOCKSIZE <= |buf|
    ensures Results(buf, analyze)[k] ==
      Classified(analyze(buf[k * BLOCKSIZE..k * BLOCKSIZE + BLOCKSIZE]))
  {
  }

  /**
   * The decoding loop's invariant: the first `k` windows have been decoded,
   * at the first `k` offsets, leaving the debouncer in `st` after printing
   * `out`; the next window starts at `pos`.
   */
  ghost predicate DecodedUpTo(buf: seq<real>, analyze: seq<real> -> PowerVector, k: nat, pos: nat,
                              offsets: seq<nat>, st: KeyState, out: seq<Output>)
  {
    k <= |buf| / BLOCKSIZE && pos == k * BLOCKSIZE &&
    offsets == WindowOffsets(|buf|)[..k] &&
    Session(INITIAL, Results(buf, analyze)[..k]) == Trace(st, out)
  }

  /** Before the loop nothing has been decoded. */
  lemma DecodedStart(buf: seq<real>, analyze: seq<real> -> PowerVector)
    ensures DecodedUpTo(buf, analyze, 0, 0, [], INITIAL, [])
  {
    assert Results(buf, analyze)[..0] == [];
    assert WindowOffsets(|buf|)[..0] == [];
  }

  /** One more window keeps the invariant. */
  lemma DecodedNext(buf: seq<real>, analyze: seq<real> -> PowerVector, k: nat, pos: nat,
                    offsets: seq<nat>, st: KeyState, out: seq<Output>)
    requires DecodedUpTo(buf, analyze, k, pos, offsets, st, out)
    requires pos + BLOCKSIZE <= |buf|
    ensures var power := analyze(buf[pos..pos + BLOCKSIZE]);
      var s := Step(st, Decode(power));
      DecodedUpTo(buf, analyze, k + 1, pos + BLOCKSIZE, offsets + [pos], s.next,
                  out + MultipleLines(MultipleReports(power)) + Lines(s.out))
  {
    NextWindow(|buf|, k, pos);
    OffsetsNext(|buf|, k, pos, offsets);
    ResultsNext(buf, analyze, k, pos, st, out);
  }

  lemma OffsetsNext(n: nat, k: nat, pos: nat, offsets: seq<nat>)
    requires k < n / BLOCKSIZE && pos == k * BLOCKSIZE
    requires offsets == WindowOffsets(n)[..k]
    ensures offsets + [pos] == WindowOffsets(n)[..k + 1]
  {
    var offs := WindowOffsets(n);
    assert offs[k] == pos;
    assert offs[..k + 1] == offs[..k] + [pos];
  }

  lemma ResultsNext(buf: seq<real>, analyze: seq<real> -> PowerVector, k: nat, pos: nat,
                    st: KeyState, out: seq<Output>)
    requires k < |buf| / BLOCKSIZE && pos == k * BLOCKSIZE
    requires Session(INITIAL, Results(buf, analyze)[..k]) == Trace(st, out)
    ensures pos + BLOCKSIZE <= |buf|
    ensures var power := analyze(buf[pos..pos + BLOCKSIZE]);
      var s := Step(st, Decode(power));
      Session(INITIAL, Results(buf, analyze)[..k + 1]) ==
        Trace(s.next, out + MultipleLines(MultipleReports(power)) + Lines(s.out))
  {
    ResultAt(buf, analyze, k);
    var power := analyze(buf[pos..pos + BLOCKSIZE]);
    SessionStep(Results(buf, analyze), k, st, out, power);
  }

  /** A window that fits at `k * BLOCKSIZE` is one of the buffer's windows. */
  lemma NextWindow(n: nat, k: nat, pos: nat)
    requires pos == k * BLOCKSIZE && pos + BLOCKSIZE <= n
    ensures k < n / BLOCKSIZE && pos + BLOCKSIZE == (k + 1) * BLOCKSIZE
  {
  }

  /** When the next window no longer fits, every window has been decoded. */
  lemma DecodedAll(buf: seq<real>, analyze: seq<real> -> PowerVector, k: nat, pos: nat,
                   offsets: seq<nat>, st: KeyState, out: seq<Output>)
    requires DecodedUpTo(buf, analyze, k, pos, offsets, st, out)
    requires pos + BLOCKSIZE > |buf|
    ensures offsets == WindowOffsets(|buf|)
    ensures out == Session(INITIAL, Results(buf, analyze)).out
  {
    assert k == |buf| / BLOCKSIZE;
    assert Results(buf, analyze)[..k] == Results(buf, analyze);
    assert WindowOffsets(|buf|)[..k] == WindowOffsets(|buf|);
  }

  /**
   * One iteration of the decoding loop: classify the window's powers and
   * feed the symbol to the debouncer; returns the lines printed for it.
   */
  method DecodeWindow(keys: Debouncer, power: seq<real>) returns (lines: seq<Output>)
    requires |power| == NUM_FREQ
    modifies keys
    ensures var s := Step(old(keys.State()), Decode(power));
      keys.State() == s.next && lines == MultipleLines(MultipleReports(power)) + Lines(s.out)
  {
    var key, reports := Classify(power);
    var line := keys.Feed(key);
    lines := MultipleLines(reports) + Lines(line);
  }

  /**
   * The decoding loop over a buffer of samples: decodes exactly the windows
   * at `WindowOffsets(|buf|)`, in order, and prints the session's lines.
   */
  method DecodeBuffer(buf: seq<real>, analyze: seq<real> -> PowerVector)
    returns (out: seq<Output>, offsets: seq<nat>)
    ensures offsets == WindowOffsets(|buf|)
    ensures out == Session(INITIAL, Results(buf, analyze)).out
  {
    var keys := new Debouncer();
    var curPos: nat := 0;
    out, offsets := [], [];
    DecodedStart(buf, analyze);
    while curPos + BLOCKSIZE <= |buf|
      invariant DecodedUpTo(buf, analyze, |offsets|, curPos, offsets, keys.State(), out)
      decreases |buf| - curPos
    {
      DecodedNext(buf, analyze, |offsets|, curPos, offsets, keys.State(), out);
      var power := analyze(buf[curPos..curPos + BLOCKSIZE]);
      var lines := DecodeWindow(keys, power);
      out := out + lines;
      offsets := offsets + [curPos];
      curPos := curPos + BLOCKSIZE;
    }
    DecodedAll(buf, analyze, |offsets|, curPos, offsets, keys.State(), out);
  }
}
