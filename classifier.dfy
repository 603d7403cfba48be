/**
 * The tone classifier: from the eight power values of one window to a
 * keypad symbol. The power values themselves (the Goertzel filter bank) are
 * an input here.
 */
module Classifier {
  import opened Keypad

  /** A tone is "on" when its power exceeds RANGE times the loudest power. */
  const RANGE: real := 0.1
  /** Minimum power of the loudest tone; below it the window is quiet. */
  const POWER_THRESHOLD: real := 100.0

  /**
   * The loudest power of `p`, scanned from the front with a running
   * maximum that starts at 0.0: the maximum of 0.0 and every entry.
   */
  function MaxPower(p: seq<real>): (m: real)
    ensures m >= 0.0
    ensures forall k :: 0 <= k < |p| ==> p[k] <= m
    ensures m == 0.0 || exists k :: 0 <= k < |p| && p[k] == m
    decreases |p|
  {
    if |p| == 0 then 0.0
    else
      var m := MaxPower(p[..|p| - 1]);
      if p[|p| - 1] > m then p[|p| - 1] else m
  }

  /** Detection flags: tone `k` is on iff its power exceeds RANGE * `maxPower`. */
  function Flags(p: seq<real>, maxPower: real): (f: seq<bool>)
    ensures |f| == |p|
  {
    seq(|p|, k requires 0 <= k < |p| => p[k] > RANGE * maxPower)
  }

  /** Number of set flags, counted from the front as the decoder does. */
  function CountOn(f: seq<bool>): nat
    decreases |f|
  {
    if |f| == 0 then 0
    else CountOn(f[..|f| - 1]) + (if f[|f| - 1] then 1 else 0)
  }

  /** The set of indices whose flag is set. */
  function OnSet(f: seq<bool>): set<nat>
  {
    set k: nat | k < |f| && f[k]
  }

  /** The running count is the size of the set of flagged tones. */
  lemma {:induction false} CountOnIsSize(f: seq<bool>)
    ensures CountOn(f) == |OnSet(f)|
    decreases |f|
  {
    if |f| > 0 {
      var g := f[..|f| - 1];
      CountOnIsSize(g);
      var last: nat := |f| - 1;
      if f[last] {
        assert OnSet(f) == OnSet(g) + {last};
        assert last !in OnSet(g);
      } else {
        assert OnSet(f) == OnSet(g);
      }
    }
  }

  /**
   * The symbol the decoder returns for a window with powers `p`, stated
   * with the keypad priority rule; `Classify` runs the if-chain itself.
   */
  function Decode(p: seq<real>): Symbol
    requires |p| == NUM_FREQ
  {
    var m := MaxPower(p);
    if m < POWER_THRESHOLD then Quiet else PriorityLookup(Flags(p, m))
  }

  /**
   * How many times the decoder reports "Multiple keys pressed." for `p`:
   * once for every flag that brings the running count above two.
   */
  function MultipleReports(p: seq<real>): nat
    requires |p| == NUM_FREQ
  {
    var m := MaxPower(p);
    if m < POWER_THRESHOLD then 0
    else
      var n := CountOn(Flags(p, m));
      if n > 2 then n - 2 else 0
  }

  /**
   * One decoding pass over a window's powers: the running maximum, the
   * detection flags with their running count, then the keypad lookup.
   */
  method Classify(power: seq<real>) returns (result: Symbol, reports: nat)
    requires |power| == NUM_FREQ
    ensures result == Decode(power)
    ensures reports == MultipleReports(power)
  {
    var maxpower := 0.0;
    var k := 0;
    while k < NUM_FREQ
      invariant 0 <= k <= NUM_FREQ
      invariant maxpower == MaxPower(power[..k])
    {
      assert power[..k + 1][..k] == power[..k];
      if power[k] > maxpower {
        maxpower := power[k];
      }
      k := k + 1;
    }
    assert power[..NUM_FREQ] == power;
    if maxpower < POWER_THRESHOLD {
      return Quiet, 0;
    }
    var detected := new bool[NUM_FREQ];
    var onCount := 0;
    reports := 0;
    k := 0;
    while k < NUM_FREQ
      invariant 0 <= k <= NUM_FREQ
      invariant detected[..k] == Flags(power, maxpower)[..k]
      invariant onCount == CountOn(detected[..k])
      invariant reports == if onCount > 2 then onCount - 2 else 0
    {
      if power[k] > RANGE * maxpower {
        detected[k] := true;
        onCount := onCount + 1;
        if onCount > 2 {
          reports := reports + 1;
        }
      } else {
        detected[k] := false;
      }
      assert detected[..k + 1][..k] == detected[..k];
      k := k + 1;
    }
    assert detected[..NUM_FREQ] == detected[..];
    assert detected[..] == Flags(power, maxpower);
    result := Lookup(detected[..]);
    LookupIsPriority(detected[..]);
  }

  /** The window is quiet exactly when the loudest power is below the threshold. */
  lemma QuietIff(p: seq<real>)
    requires |p| == NUM_FREQ
    ensures Decode(p) == Quiet <==> MaxPower(p) < POWER_THRESHOLD
  {
    if MaxPower(p) >= POWER_THRESHOLD {
      LookupRange(Flags(p, MaxPower(p)));
      LookupIsPriority(Flags(p, MaxPower(p)));
    }
  }

  /** Every power below the threshold: quiet, whatever their ratios. */
  lemma AllBelowThresholdIsQuiet(p: seq<real>)
    requires |p| == NUM_FREQ
    requires forall k :: 0 <= k < |p| ==> p[k] < POWER_THRESHOLD
    ensures Decode(p) == Quiet
  {
  }

  /**
   * Past the threshold the loudest tone is always flagged, so at least one
   * flag is set.
   */
  lemma LoudestIsFlagged(p: seq<real>)
    requires |p| == NUM_FREQ
    requires MaxPower(p) >= POWER_THRESHOLD
    ensures exists k :: 0 <= k < |p| && p[k] == MaxPower(p) && Flags(p, MaxPower(p))[k]
    ensures CountOn(Flags(p, MaxPower(p))) >= 1
  {
    var m := MaxPower(p);
    var k :| 0 <= k < |p| && p[k] == m;
    var f := Flags(p, m);
    assert f[k];
    CountOnIsSize(f);
    assert k in OnSet(f);
  }

  /** "Multiple keys pressed." is reported iff more than two tones are on. */
  lemma MultipleIff(p: seq<real>)
    requires |p| == NUM_FREQ
    ensures MultipleReports(p) > 0 <==>
      MaxPower(p) >= POWER_THRESHOLD && |OnSet(Flags(p, MaxPower(p)))| > 2
  {
    CountOnIsSize(Flags(p, MaxPower(p)));
  }

  /**
   * A loud window with exactly one row tone and one column tone above the
   * relative threshold decodes to the key of that pair.
   */
  lemma DualToneDecodes(p: seq<real>, r: nat, c: nat)
    requires |p| == NUM_FREQ && r < 4 && c < 4
    requires MaxPower(p) >= POWER_THRESHOLD
    requires forall k :: 0 <= k < NUM_FREQ ==>
      (p[k] > RANGE * MaxPower(p) <==> k == r || k == COL1 + c)
    ensures Decode(p) == Key(KeyAt(r, c))
  {
    ExactPairDecodes(Flags(p, MaxPower(p)), r, c);
    LookupIsPriority(Flags(p, MaxPower(p)));
  }
}
