/**
 * The 4x4 DTMF keypad: the eight target frequencies split into four row
 * tones and four column tones, the result of classifying one window, and
 * the if-chain that turns a set of detected tones into a key.
 */
module Keypad {

  /** Number of target frequencies (four rows, four columns). */
  const NUM_FREQ: nat := 8

  /** Indices of the row tones 697, 770, 852 and 941 Hz. */
  const ROW1: nat := 0
  const ROW2: nat := 1
  const ROW3: nat := 2
  const ROW4: nat := 3

  /** Indices of the column tones 1209, 1336, 1477 and 1633 Hz. */
  const COL1: nat := 4
  const COL2: nat := 5
  const COL3: nat := 6
  const COL4: nat := 7

  /** The target frequencies in Hz, indexed as above. */
  const DTMF_FREQ: seq<int> := [697, 770, 852, 941, 1209, 1336, 1477, 1633]

  /**
   * What one window decodes to. The decoder returns a `char`: 0 for
   * "no key matched" (`NoMatch`), 1 for "not enough power" (`Quiet`) and
   * otherwise the key's character, whose code is always above 1.
   */
  datatype Symbol = NoMatch | Quiet | Key(c: char)

  datatype Option<T> = None | Some(value: T)

  /** The characters of the keypad, row by row, in the decoder's spelling. */
  const LAYOUT: string := "123a456b789c*0#d"

  /** The key at row `r` and column `c` (both counted from 0). */
  function KeyAt(r: nat, c: nat): (ch: char)
    requires r < 4 && c < 4
    ensures ch in LAYOUT && ch as int > 1
  {
    LAYOUT[4 * r + c]
  }

  /** Where a character sits on the keypad, if it is a key at all. */
  function KeyPosition(ch: char): (p: Option<(nat, nat)>)
    ensures p.Some? ==> p.value.0 < 4 && p.value.1 < 4
  {
    match IndexFrom(ch, 0)
    case None => None
    case Some(i) => Some((i / 4, i % 4))
  }

  /** The first index at or after `i` where `ch` appears in the layout. */
  function IndexFrom(ch: char, i: nat): (p: Option<nat>)
    requires i <= |LAYOUT|
    ensures p.Some? ==> i <= p.value < |LAYOUT| && LAYOUT[p.value] == ch
    ensures p.None? ==> forall j :: i <= j < |LAYOUT| ==> LAYOUT[j] != ch
    decreases |LAYOUT| - i
  {
    if i == |LAYOUT| then None
    else if LAYOUT[i] == ch then Some(i)
    else IndexFrom(ch, i + 1)
  }

  /** The search from `i` finds the first place at or after `i` holding `ch`. */
  lemma {:induction false} IndexFromFinds(ch: char, i: nat, j: nat)
    requires i <= j < |LAYOUT| && LAYOUT[j] == ch
    requires forall k :: i <= k < j ==> LAYOUT[k] != ch
    ensures IndexFrom(ch, i) == Some(j)
    decreases j - i
  {
    if i < j {
      IndexFromFinds(ch, i + 1, j);
    }
  }

  /** No character appears twice in the layout. */
  predicate DistinctKeys()
  {
    forall i, j :: 0 <= i < j < |LAYOUT| ==> LAYOUT[i] != LAYOUT[j]
  }

  lemma LayoutDistinct()
    ensures DistinctKeys()
  {
  }

  /** Two different places of the layout hold different characters. */
  lemma LayoutCharsDiffer(i: nat, j: nat)
    requires i < |LAYOUT| && j < |LAYOUT| && i != j
    ensures LAYOUT[i] != LAYOUT[j]
  {
    LayoutDistinct();
    if i > j {
      assert LAYOUT[j] != LAYOUT[i];
    }
  }

  /** The sixteen (row, column) pairs give sixteen different keys. */
  lemma KeyAtInjective(r1: nat, c1: nat, r2: nat, c2: nat)
    requires r1 < 4 && c1 < 4 && r2 < 4 && c2 < 4
    requires (r1, c1) != (r2, c2)
    ensures KeyAt(r1, c1) != KeyAt(r2, c2)
  {
    LayoutDistinct();
    var i, j := 4 * r1 + c1, 4 * r2 + c2;
    assert i != j;
    if i < j {
      assert LAYOUT[i] != LAYOUT[j];
    } else {
      assert LAYOUT[j] != LAYOUT[i];
    }
  }

  /** The key of a pair leads back to that pair, and a key back to itself. */
  lemma KeyRoundTrip(r: nat, c: nat)
    requires r < 4 && c < 4
    ensures KeyPosition(KeyAt(r, c)) == Some((r, c))
  {
    var ch := KeyAt(r, c);
    assert LAYOUT[4 * r + c] == ch;
    var j := 4 * r + c;
    forall k | 0 <= k < j
      ensures LAYOUT[k] != ch
    {
      LayoutCharsDiffer(k, j);
    }
    IndexFromFinds(ch, 0, j);
    SplitIndex(r, c);
  }

  lemma SplitIndex(r: nat, c: nat)
    requires c < 4
    ensures (4 * r + c) / 4 == r && (4 * r + c) % 4 == c
  {
  }

  lemma PositionRoundTrip(ch: char)
    requires KeyPosition(ch).Some?
    ensures KeyAt(KeyPosition(ch).value.0, KeyPosition(ch).value.1) == ch
  {
    var i := IndexFrom(ch, 0).value;
    assert 4 * (i / 4) + i % 4 == i;
  }

  /**
   * The decoder's if-chain over the detection flags (`f[k]` is true when
   * tone `k` was detected). The first flagged row is taken; within it the
   * first flagged column. The column flags are the same for every row, so
   * once a row is flagged no later row is consulted; no flagged row, or no
   * flagged column, gives `NoMatch`.
   */
  function Lookup(f: seq<bool>): Symbol
    requires |f| == NUM_FREQ
  {
    if f[ROW1] then
      if f[COL1] then Key('1')
      else if f[COL2] then Key('2')
      else if f[COL3] then Key('3')
      else if f[COL4] then Key('a')
      else NoMatch
    else if f[ROW2] then
      if f[COL1] then Key('4')
      else if f[COL2] then Key('5')
      else if f[COL3] then Key('6')
      else if f[COL4] then Key('b')
      else NoMatch
    else if f[ROW3] then
      if f[COL1] then Key('7')
      else if f[COL2] then Key('8')
      else if f[COL3] then Key('9')
      else if f[COL4] then Key('c')
      else NoMatch
    else if f[ROW4] then
      if f[COL1] then Key('*')
      else if f[COL2] then Key('0')
      else if f[COL3] then Key('#')
      else if f[COL4] then Key('d')
      else NoMatch
    else NoMatch
  }

  /** The lowest index `i` in `[lo, hi)` with `f[i]` set, if any. */
  function FirstFlagged(f: seq<bool>, lo: nat, hi: nat): (p: Option<nat>)
    requires lo <= hi <= |f|
    ensures p.Some? ==> lo <= p.value < hi && f[p.value]
    ensures p.Some? ==> forall j :: lo <= j < p.value ==> !f[j]
    ensures p.None? ==> forall j :: lo <= j < hi ==> !f[j]
    decreases hi - lo
  {
    if lo == hi then None
    else if f[lo] then Some(lo)
    else FirstFlagged(f, lo + 1, hi)
  }

  /**
   * Reference definition of the keypad priority rule: the lowest flagged
   * row and, within it, the lowest flagged column.
   */
  function PriorityLookup(f: seq<bool>): Symbol
    requires |f| == NUM_FREQ
  {
    match FirstFlagged(f, ROW1, ROW4 + 1)
    case None => NoMatch
    case Some(r) =>
      match FirstFlagged(f, COL1, COL4 + 1)
      case None => NoMatch
      case Some(c) => Key(KeyAt(r, c - COL1))
  }

  /** The if-chain implements the priority rule exactly. */
  lemma LookupIsPriority(f: seq<bool>)
    requires |f| == NUM_FREQ
    ensures Lookup(f) == PriorityLookup(f)
  {
    var rows := FirstFlagged(f, ROW1, ROW4 + 1);
    var cols := FirstFlagged(f, COL1, COL4 + 1);
    if rows.Some? && cols.Some? {
      var r, c := rows.value, cols.value - COL1;
      assert f[r] && f[COL1 + c];
      assert KeyAt(r, c) == LAYOUT[4 * r + c];
    }
  }

  /** True when exactly row `r` and column `c` are flagged. */
  predicate ExactlyPair(f: seq<bool>, r: nat, c: nat)
    requires |f| == NUM_FREQ && r < 4 && c < 4
  {
    forall k :: 0 <= k < NUM_FREQ ==> (f[k] <==> k == r || k == COL1 + c)
  }

  /**
   * One row and one column flagged: the key of that pair in the standard
   * layout.
   */
  lemma ExactPairDecodes(f: seq<bool>, r: nat, c: nat)
    requires |f| == NUM_FREQ && r < 4 && c < 4
    requires ExactlyPair(f, r, c)
    ensures Lookup(f) == Key(KeyAt(r, c))
  {
    LookupIsPriority(f);
    var rows := FirstFlagged(f, ROW1, ROW4 + 1);
    var cols := FirstFlagged(f, COL1, COL4 + 1);
    assert f[r] && f[COL1 + c];
    assert rows == Some(r);
    assert cols == Some(COL1 + c);
  }

  /** No flagged row, or no flagged column: `NoMatch`. */
  lemma NoFallThrough(f: seq<bool>)
    requires |f| == NUM_FREQ
    requires (forall k :: ROW1 <= k <= ROW4 ==> !f[k]) || (forall k :: COL1 <= k <= COL4 ==> !f[k])
    ensures Lookup(f) == NoMatch
  {
    LookupIsPriority(f);
  }

  /** Row `r` is flagged and no lower row is. */
  predicate FirstRowIs(f: seq<bool>, r: nat)
    requires |f| == NUM_FREQ
  {
    r < 4 && f[r] && forall j :: ROW1 <= j < r ==> !f[j]
  }

  /** Column `c` is flagged and no lower column is. */
  predicate FirstColumnIs(f: seq<bool>, c: nat)
    requires |f| == NUM_FREQ
  {
    c < 4 && f[COL1 + c] && forall j :: COL1 <= j < COL1 + c ==> !f[j]
  }

  /**
   * A key is reported exactly when some row and some column are flagged,
   * and it is the key of the lowest flagged row and lowest flagged column.
   */
  lemma LookupKeyIff(f: seq<bool>, ch: char)
    requires |f| == NUM_FREQ
    ensures Lookup(f) == Key(ch) <==>
      exists r: nat, c: nat :: FirstRowIs(f, r) && FirstColumnIs(f, c) && r < 4 && c < 4 && ch == KeyAt(r, c)
  {
    LookupIsPriority(f);
    PriorityKeyIff(f, ch);
  }

  lemma PriorityKeyIff(f: seq<bool>, ch: char)
    requires |f| == NUM_FREQ
    ensures PriorityLookup(f) == Key(ch) <==>
      exists r: nat, c: nat :: FirstRowIs(f, r) && FirstColumnIs(f, c) && r < 4 && c < 4 && ch == KeyAt(r, c)
  {
    if PriorityLookup(f) == Key(ch) {
      var r := FirstFlagged(f, ROW1, ROW4 + 1).value;
      var c := FirstFlagged(f, COL1, COL4 + 1).value - COL1;
      assert FirstRowIs(f, r) && FirstColumnIs(f, c) && ch == KeyAt(r, c);
    }
    if exists r: nat, c: nat :: FirstRowIs(f, r) && FirstColumnIs(f, c) && r < 4 && c < 4 && ch == KeyAt(r, c) {
      var r: nat, c: nat :| FirstRowIs(f, r) && FirstColumnIs(f, c) && r < 4 && c < 4 && ch == KeyAt(r, c);
      FirstFlaggedFinds(f, ROW1, ROW4 + 1, r);
      FirstFlaggedFinds(f, COL1, COL4 + 1, COL1 + c);
    }
  }

  /** The scan stops at the first flagged index of the range. */
  lemma {:induction false} FirstFlaggedFinds(f: seq<bool>, lo: nat, hi: nat, k: nat)
    requires lo <= k < hi <= |f| && f[k]
    requires forall j :: lo <= j < k ==> !f[j]
    ensures FirstFlagged(f, lo, hi) == Some(k)
    decreases k - lo
  {
    if lo < k {
      FirstFlaggedFinds(f, lo + 1, hi, k);
    }
  }

  /** The if-chain never reports `Quiet`, and its keys are keypad keys. */
  lemma LookupRange(f: seq<bool>)
    requires |f| == NUM_FREQ
    ensures Lookup(f) != Quiet
    ensures Lookup(f).Key? ==> Lookup(f).c in LAYOUT && Lookup(f).c as int > 1
  {
    LookupIsPriority(f);
  }
}
