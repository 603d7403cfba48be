/**
 * The spectrum bin of each target frequency, from which the filter
 * coefficient 2 * cos(2 * pi * k / blocksize) is derived. Only the integer
 * bin index `k` is modelled; the cosine is not.
 */
module Coefficients {
  import opened Keypad
  import Decoder

  /**
   * C's `/` on `int`: the quotient rounded toward zero, so the remainder
   * `a - q * b` is smaller than `|b|` and has the sign of `a`.
   */
  function CDiv(a: int, b: int): (q: int)
    requires b != 0
    ensures var r, m := a - q * b, if b >= 0 then b else -b;
      (a >= 0 ==> 0 <= r < m) && (a < 0 ==> -m < r <= 0)
    ensures a >= 0 && b > 0 ==> q == a / b
    ensures (a >= 0) == (b > 0) || a == 0 ==> q >= 0
    ensures (a >= 0) != (b > 0) ==> q <= 0
  {
    if a >= 0 && b > 0 then
      DivRemainder(a, b);
      a / b
    else if a >= 0 then
      var x := a / -b;
      DivRemainder(a, -b);
      ProductSigns(x, b);
      -x
    else if b > 0 then
      var x := -a / b;
      DivRemainder(-a, b);
      ProductSigns(x, b);
      -x
    else
      var x := -a / -b;
      DivRemainder(-a, -b);
      ProductSigns(x, b);
      x
  }

  lemma DivRemainder(n: nat, d: nat)
    requires d > 0
    ensures 0 <= n - (n / d) * d < d
  {
    assert n == (n / d) * d + n % d;
  }

  lemma ProductSigns(x: int, b: int)
    ensures x * (-b) == -(x * b) && (-x) * b == -(x * b)
  {
  }

  /** C's conversion of a `double` to `int`: it truncates toward zero. */
  function TruncToward0(x: real): (k: int)
    ensures x >= 0.0 ==> k as real <= x < k as real + 1.0
    ensures x < 0.0 ==> k as real - 1.0 < x <= k as real
  {
    if x >= 0.0 then x.Floor else -((-x).Floor)
  }

  /**
   * The integer quotient `q`, converted to `double`, plus 0.5, converted
   * back to `int`: `q` itself when `q >= 0`, `q + 1` when `q < 0`.
   */
  function TruncHalfAbove(q: int): (k: int)
    ensures k == TruncToward0(q as real + 0.5)
  {
    if q >= 0 then q else q + 1
  }

  /**
   * The bin index as the decoder computes it: `0.5 + (blocksize * freq) /
   * samplerate` with the division done on integers, then truncated to `int`.
   */
  function BinIndex(samplerate: int, blocksize: int, freq: int): int
    requires samplerate != 0
  {
    TruncHalfAbove(CDiv(blocksize * freq, samplerate))
  }

  /**
   * For a real configuration the half added after the integer division is
   * lost: the index is the floor quotient, the bin at or below `freq`.
   */
  lemma BinIndexIsFloor(samplerate: int, blocksize: int, freq: int)
    requires samplerate > 0 && blocksize >= 0 && freq >= 0
    ensures BinIndex(samplerate, blocksize, freq) == (blocksize * freq) / samplerate
    ensures var k := BinIndex(samplerate, blocksize, freq);
      k * samplerate <= blocksize * freq < (k + 1) * samplerate
  {
    var a := blocksize * freq;
    assert a >= 0 by {
      MulNonNegative(blocksize, freq);
    }
    var k := a / samplerate;
    assert a == k * samplerate + a % samplerate;
  }

  lemma MulNonNegative(x: int, y: int)
    requires x >= 0 && y >= 0
    ensures x * y >= 0
  {
  }

  /**
   * The index of the bin nearest to `freq`: what adding 0.5 before
   * truncating achieves when the division is done in floating point.
   */
  function NearestBin(samplerate: int, blocksize: int, freq: int): (k: int)
    requires samplerate > 0 && blocksize >= 0 && freq >= 0
  {
    (2 * blocksize * freq + samplerate) / (2 * samplerate)
  }

  /** The nearest bin is within half a bin of `freq`. */
  lemma NearestBinIsNearest(samplerate: int, blocksize: int, freq: int)
    requires samplerate > 0 && blocksize >= 0 && freq >= 0
    ensures var k := NearestBin(samplerate, blocksize, freq);
      2 * k * samplerate <= 2 * blocksize * freq + samplerate < 2 * k * samplerate + 2 * samplerate
  {
    var a := 2 * blocksize * freq + samplerate;
    var d := 2 * samplerate;
    var k := a / d;
    assert a == k * d + a % d;
  }

  /**
   * The bin loop over the eight target frequencies: `bins[c]` is the bin
   * index of `DTMF_FREQ[c]`.
   */
  method MakeBins(samplerate: int, blocksize: int) returns (bins: seq<int>)
    requires samplerate != 0
    ensures |bins| == NUM_FREQ
    ensures forall c :: 0 <= c < NUM_FREQ ==> bins[c] == BinIndex(samplerate, blocksize, DTMF_FREQ[c])
  {
    bins := [];
    for c := 0 to NUM_FREQ
      invariant |bins| == c
      invariant forall j :: 0 <= j < c ==> bins[j] == BinIndex(samplerate, blocksize, DTMF_FREQ[j])
    {
      bins := bins + [BinIndex(samplerate, blocksize, DTMF_FREQ[c])];
    }
  }

  /** At 8000 Hz with 200-sample windows the decoder uses bins 17, 19, 21, 23, 30, 33, 36, 40. */
  lemma BinsAt8000(c: nat)
    requires c < NUM_FREQ
    ensures BinIndex(Decoder.SAMPLERATE, Decoder.BLOCKSIZE, DTMF_FREQ[c]) == [17, 19, 21, 23, 30, 33, 36, 40][c]
  {
  }

  /**
   * Three of those bins are one below the nearest bin: 941 Hz is at 23.525
   * bins, 1477 Hz at 36.925 and 1633 Hz at 40.825, and the decoder uses
   * 23, 36 and 40 instead of 24, 37 and 41.
   */
  lemma TruncatedBinsOneLow()
    ensures BinIndex(Decoder.SAMPLERATE, Decoder.BLOCKSIZE, 941) == 23 && NearestBin(Decoder.SAMPLERATE, Decoder.BLOCKSIZE, 941) == 24
    ensures BinIndex(Decoder.SAMPLERATE, Decoder.BLOCKSIZE, 1477) == 36 && NearestBin(Decoder.SAMPLERATE, Decoder.BLOCKSIZE, 1477) == 37
    ensures BinIndex(Decoder.SAMPLERATE, Decoder.BLOCKSIZE, 1633) == 40 && NearestBin(Decoder.SAMPLERATE, Decoder.BLOCKSIZE, 1633) == 41
  {
  }

  /** The other five target frequencies are in the nearest bin either way. */
  lemma OtherBinsAgree(c: nat)
    requires c < NUM_FREQ && c != ROW4 && c != COL3 && c != COL4
    ensures BinIndex(Decoder.SAMPLERATE, Decoder.BLOCKSIZE, DTMF_FREQ[c]) == NearestBin(Decoder.SAMPLERATE, Decoder.BLOCKSIZE, DTMF_FREQ[c])
  {
  }
}
