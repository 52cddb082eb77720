/** A line is one row or column of the board, read so that index 0 is the
    cell next to the wall the tiles slide towards. This module states what
    processing one line does: compaction, one greedy merge pass, padding. */
module Lines {

  /** The side of the board, and so the length of every line. */
  const Size: nat := 4

  /** The sum of all cells of a line. */
  function Sum(s: seq<int>): int
  {
    if s == [] then 0 else s[0] + Sum(s[1..])
  }

  /** How many cells of a line hold a tile. */
  function NonZeroCount(s: seq<int>): nat
  {
    if s == [] then 0 else (if s[0] != 0 then 1 else 0) + NonZeroCount(s[1..])
  }

  /** Some two neighbouring cells hold equal values. */
  predicate HasPair(s: seq<int>)
  {
    exists i :: 0 <= i < |s| - 1 && s[i] == s[i + 1]
  }

  /** No tile stands after an empty cell. */
  predicate LeftAligned(s: seq<int>)
  {
    forall i, j :: 0 <= i < j < |s| && s[i] == 0 ==> s[j] == 0
  }

  /** A tile value: a power of two that is at least 2. */
  predicate IsPowerOfTwo(x: int)
    decreases if x < 0 then 0 else x
  {
    x == 2 || (x > 2 && x % 2 == 0 && IsPowerOfTwo(x / 2))
  }

  /** A cell value: empty (0) or a tile. */
  predicate IsTile(x: int)
  {
    x == 0 || IsPowerOfTwo(x)
  }

  /** The non-empty cells of `line`, in their original order: the compaction
      step, written (like the source's loop) by extending a prefix. */
  function Compact(line: seq<int>): (c: seq<int>)
    ensures |c| <= |line|
  {
    if line == [] then []
    else
      var last := line[|line| - 1];
      Compact(line[..|line| - 1]) + (if last != 0 then [last] else [])
  }

  /** One left-to-right pass over a compacted line: each pair of equal
      neighbours becomes one cell of twice the value, and the cell produced
      by a merge is never merged again in the same pass. */
  function Merge(c: seq<int>): (m: seq<int>)
    ensures |m| <= |c|
    ensures 2 * |m| >= |c|
  {
    if |c| == 0 then []
    else if |c| >= 2 && c[0] == c[1] then [2 * c[0]] + Merge(c[2..])
    else [c[0]] + Merge(c[1..])
  }

  /** The score the merge pass adds: the sum of the merged values. */
  function MergeGain(c: seq<int>): int
  {
    if |c| == 0 then 0
    else if |c| >= 2 && c[0] == c[1] then 2 * c[0] + MergeGain(c[2..])
    else MergeGain(c[1..])
  }

  function Zeros(n: nat): (z: seq<int>)
    ensures |z| == n
    ensures forall i :: 0 <= i < n ==> z[i] == 0
  {
    seq(n, _ => 0)
  }

  /** The line after a move: the merged tiles left-aligned, the rest empty. */
  function Processed(line: seq<int>): (r: seq<int>)
    ensures |r| == |line|
  {
    var m := Merge(Compact(line));
    m + Zeros(|line| - |m|)
  }

  /** The score one line adds to the game. */
  function Gain(line: seq<int>): int
  {
    MergeGain(Compact(line))
  }

  /** Compaction leaves no empty cell. */
  lemma {:induction false} CompactNoZero(line: seq<int>)
    ensures 0 !in Compact(line)
  {
    if line != [] {
      CompactNoZero(line[..|line| - 1]);
    }
  }

  /** Merging tiles yields tiles only. */
  lemma {:induction false} MergeNoZero(c: seq<int>)
    requires 0 !in c
    ensures 0 !in Merge(c)
  {
    if |c| >= 2 && c[0] == c[1] {
      assert c[2..][..] == c[2..] && forall x :: x in c[2..] ==> x in c;
      MergeNoZero(c[2..]);
    } else if |c| > 0 {
      assert forall x :: x in c[1..] ==> x in c;
      MergeNoZero(c[1..]);
    }
  }

  // ---------------------------------------------------------------------
  // Sums and counts

  lemma {:induction false} SumAppend(a: seq<int>, b: seq<int>)
    ensures Sum(a + b) == Sum(a) + Sum(b)
  {
    if a == [] {
      assert a + b == b;
    } else {
      assert (a + b)[0] == a[0] && (a + b)[1..] == a[1..] + b;
      SumAppend(a[1..], b);
    }
  }

  lemma {:induction false} CountAppend(a: seq<int>, b: seq<int>)
    ensures NonZeroCount(a + b) == NonZeroCount(a) + NonZeroCount(b)
  {
    if a == [] {
      assert a + b == b;
    } else {
      assert (a + b)[0] == a[0] && (a + b)[1..] == a[1..] + b;
      CountAppend(a[1..], b);
    }
  }

  lemma {:induction false} ZerosSumCount(n: nat)
    ensures Sum(Zeros(n)) == 0 && NonZeroCount(Zeros(n)) == 0
  {
    if n > 0 {
      assert Zeros(n)[1..] == Zeros(n - 1);
      ZerosSumCount(n - 1);
    }
  }

  /** A line of tiles only: its count is its length. */
  lemma {:induction false} FullCount(s: seq<int>)
    requires 0 !in s
    ensures NonZeroCount(s) == |s|
  {
    if s != [] {
      FullCount(s[1..]);
    }
  }

  /** Compaction keeps every tile and its value. */
  lemma {:induction false} CompactSumCount(line: seq<int>)
    ensures Sum(Compact(line)) == Sum(line)
    ensures |Compact(line)| == NonZeroCount(line)
  {
    if line != [] {
      var init, last := line[..|line| - 1], line[|line| - 1];
      assert line == init + [last];
      CompactSumCount(init);
      SumAppend(init, [last]);
      CountAppend(init, [last]);
      SumAppend(Compact(init), if last != 0 then [last] else []);
    }
  }

  /** Merging keeps the sum of the line. */
  lemma {:induction false} MergeSum(c: seq<int>)
    ensures Sum(Merge(c)) == Sum(c)
  {
    if |c| >= 2 && c[0] == c[1] {
      MergeSum(c[2..]);
      assert c[1..][1..] == c[2..];
    } else if |c| > 0 {
      MergeSum(c[1..]);
    }
  }

  /** Every output cell after a merge pass holds a tile, and the padding
      holds none: the processed line counts exactly the merged cells. */
  lemma ProcessedCount(line: seq<int>)
    ensures NonZeroCount(Processed(line)) == |Merge(Compact(line))|
  {
    var m := Merge(Compact(line));
    CompactNoZero(line);
    MergeNoZero(Compact(line));
    CountAppend(m, Zeros(|line| - |m|));
    ZerosSumCount(|line| - |m|);
    FullCount(m);
  }

  /** Processing a line preserves its sum, never increases its number of
      tiles, and (no re-merge) at most halves it. */
  lemma ProcessedSumCount(line: seq<int>)
    ensures Sum(Processed(line)) == Sum(line)
    ensures NonZeroCount(Processed(line)) <= NonZeroCount(line)
    ensures 2 * NonZeroCount(Processed(line)) >= NonZeroCount(line)
  {
    var c := Compact(line);
    var m := Merge(c);
    CompactSumCount(line);
    MergeSum(c);
    SumAppend(m, Zeros(|line| - |m|));
    ZerosSumCount(|line| - |m|);
    ProcessedCount(line);
  }

  // ---------------------------------------------------------------------
  // When a line changes

  lemma {:induction false} CompactFull(line: seq<int>)
    requires 0 !in line
    ensures Compact(line) == line
  {
    if line != [] {
      var init := line[..|line| - 1];
      assert line == init + [line[|line| - 1]];
      CompactFull(init);
    }
  }

  lemma {:induction false} MergeNoPair(c: seq<int>)
    requires !HasPair(c)
    ensures Merge(c) == c && MergeGain(c) == 0
  {
    if |c| >= 2 {
      assert c[0] != c[1];
      assert !HasPair(c[1..]) by {
        forall i | 0 <= i < |c[1..]| - 1 ensures c[1..][i] != c[1..][i + 1] {
          assert c[i + 1] != c[i + 2];
        }
      }
      MergeNoPair(c[1..]);
    } else if |c| == 1 {
      MergeNoPair(c[1..]);
    }
  }

  lemma {:induction false} MergeShrinks(c: seq<int>)
    requires HasPair(c)
    ensures |Merge(c)| < |c|
  {
    if c[0] != c[1] {
      var i :| 0 <= i < |c| - 1 && c[i] == c[i + 1];
      assert c[1..][i - 1] == c[1..][i];
      MergeShrinks(c[1..]);
    }
  }

  /** The merge pass as the engine walks it: from index i on, with the
      values `out` already written and the score `gain` already earned. */
  function MergeWalk(c: seq<int>, i: nat, out: seq<int>, gain: int): (seq<int>, int)
    decreases |c| - i
  {
    if i >= |c| then (out, gain)
    else if i + 1 < |c| && c[i] == c[i + 1] then MergeWalk(c, i + 2, out + [2 * c[i]], gain + 2 * c[i])
    else MergeWalk(c, i + 1, out + [c[i]], gain)
  }

  /** The walk from index i appends the merge pass of the suffix from i. */
  lemma {:induction false} MergeWalkSuffix(c: seq<int>, i: nat, out: seq<int>, gain: int)
    requires i <= |c|
    ensures MergeWalk(c, i, out, gain) == (out + Merge(c[i..]), gain + MergeGain(c[i..]))
    decreases |c| - i
  {
    var s := c[i..];
    if i == |c| {
      assert s == [];
      assert out + Merge(s) == out;
    } else if i + 1 < |c| && c[i] == c[i + 1] {
      assert s[2..] == c[i + 2..];
      assert Merge(s) == [2 * c[i]] + Merge(c[i + 2..]);
      MergeWalkSuffix(c, i + 2, out + [2 * c[i]], gain + 2 * c[i]);
      assert out + [2 * c[i]] + Merge(c[i + 2..]) == out + ([2 * c[i]] + Merge(c[i + 2..]));
    } else {
      assert s[1..] == c[i + 1..];
      assert Merge(s) == [c[i]] + Merge(c[i + 1..]);
      MergeWalkSuffix(c, i + 1, out + [c[i]], gain);
      assert out + [c[i]] + Merge(c[i + 1..]) == out + ([c[i]] + Merge(c[i + 1..]));
    }
  }

  /** The whole walk, started empty, is the merge pass and its score. */
  lemma MergeWalkIsMerge(c: seq<int>)
    ensures MergeWalk(c, 0, [], 0) == (Merge(c), MergeGain(c))
  {
    MergeWalkSuffix(c, 0, [], 0);
    assert c[0..] == c;
    assert [] + Merge(c) == Merge(c);
  }

  /** A merge pass that shrinks nothing merged nothing. */
  lemma {:induction false} MergeSameLength(c: seq<int>)
    requires |Merge(c)| == |c|
    ensures Merge(c) == c && MergeGain(c) == 0
  {
    if HasPair(c) {
      MergeShrinks(c);
    }
    MergeNoPair(c);
  }

  /** A line of tiles without equal neighbours does not change. */
  lemma NoGapNoPairUnchanged(line: seq<int>)
    requires 0 !in line && !HasPair(line)
    ensures Processed(line) == line && Gain(line) == 0
  {
    CompactFull(line);
    MergeNoPair(line);
  }

  /** A line of tiles with two equal neighbours changes. */
  lemma NoGapPairChanges(line: seq<int>)
    requires 0 !in line && HasPair(line)
    ensures Processed(line) != line
  {
    CompactFull(line);
    MergeShrinks(line);
    var m := Merge(line);
    assert Processed(line)[|line| - 1] == 0;
  }

  /** A processed line is left-aligned. */
  lemma ProcessedLeftAligned(line: seq<int>)
    ensures LeftAligned(Processed(line))
  {
    var m := Merge(Compact(line));
    var r := Processed(line);
    CompactNoZero(line);
    MergeNoZero(Compact(line));
    forall i, j | 0 <= i < j < |r| && r[i] == 0 ensures r[j] == 0 {
    }
  }

  /** A line that does not change earns no score. */
  lemma UnchangedNoGain(line: seq<int>)
    requires Processed(line) == line
    ensures Gain(line) == 0
  {
    var c := Compact(line);
    ProcessedCount(line);
    CompactSumCount(line);
    MergeSameLength(c);
  }

  /** A line that changes has an empty cell afterwards, so the spawn that
      follows a successful move always finds a free cell. */
  lemma ChangedLineHasEmpty(line: seq<int>)
    requires Processed(line) != line
    ensures 0 in Processed(line)
  {
    var c := Compact(line);
    var m := Merge(c);
    if |m| == |line| {
      assert |c| == |line|;
      CompactSumCount(line);
      if 0 in line {
        var i :| 0 <= i < |line| && line[i] == 0;
        NonZeroBelowLength(line, i);
      }
      CompactFull(line);
      MergeSameLength(c);
    } else {
      assert Processed(line)[|line| - 1] == 0;
    }
  }

  lemma {:induction false} NonZeroBelowLength(s: seq<int>, i: nat)
    requires i < |s| && s[i] == 0
    ensures NonZeroCount(s) < |s|
  {
    if i > 0 {
      NonZeroBelowLength(s[1..], i - 1);
    } else {
      NonZeroAtMostLength(s[1..]);
    }
  }

  lemma {:induction false} NonZeroAtMostLength(s: seq<int>)
    ensures NonZeroCount(s) <= |s|
  {
    if s != [] {
      NonZeroAtMostLength(s[1..]);
    }
  }

  // ---------------------------------------------------------------------
  // Tile values

  /** Merging tiles yields tiles. */
  lemma {:induction false} MergeTiles(c: seq<int>)
    requires forall i :: 0 <= i < |c| ==> IsTile(c[i])
    ensures forall i :: 0 <= i < |Merge(c)| ==> IsTile(Merge(c)[i])
    ensures MergeGain(c) >= 0
  {
    if |c| >= 2 && c[0] == c[1] {
      MergeTiles(c[2..]);
      assert IsTile(2 * c[0]) by {
        if c[0] != 0 {
          assert (2 * c[0]) / 2 == c[0];
        }
      }
      assert c[0] >= 0 by { TileNonNegative(c[0]); }
    } else if |c| > 0 {
      MergeTiles(c[1..]);
    }
  }

  lemma TileNonNegative(x: int)
    requires IsTile(x)
    ensures x >= 0
  {
  }

  lemma {:induction false} CompactTiles(line: seq<int>)
    requires forall i :: 0 <= i < |line| ==> IsTile(line[i])
    ensures forall i :: 0 <= i < |Compact(line)| ==> IsTile(Compact(line)[i])
  {
    if line != [] {
      CompactTiles(line[..|line| - 1]);
    }
  }

  /** Processing a line of valid cells gives valid cells and a score that
      does not decrease. */
  lemma ProcessedTiles(line: seq<int>)
    requires forall i :: 0 <= i < |line| ==> IsTile(line[i])
    ensures forall i :: 0 <= i < |line| ==> IsTile(Processed(line)[i])
    ensures Gain(line) >= 0
  {
    CompactTiles(line);
    MergeTiles(Compact(line));
  }

  // ---------------------------------------------------------------------
  // The merge policy on two concrete lines

  /** Four equal tiles merge into two pairs, `[4,4,0,0]` with 8 points,
      not into one tile. */
  lemma FourEqualTilesMergeTwice()
    ensures Processed([2, 2, 2, 2]) == [4, 4, 0, 0] && Gain([2, 2, 2, 2]) == 8
  {
    CompactFull([2, 2, 2, 2]);
    assert Merge([2, 2]) == [4] + Merge([]);
    assert Merge([2, 2, 2, 2]) == [4, 4];
  }

  /** A pair separated from the wall by a gap slides and merges. */
  lemma GapThenPairSlides()
    ensures Processed([0, 2, 2, 0]) == [4, 0, 0, 0] && Gain([0, 2, 2, 0]) == 4
  {
    assert [0, 2, 2, 0][..3] == [0, 2, 2];
    assert [0, 2, 2][..2] == [0, 2];
    assert [0, 2][..1] == [0];
    assert [0][..0] == [];
    assert Compact([0, 2, 2, 0]) == [2, 2];
    assert Merge([2, 2]) == [4] + Merge([]);
  }

  /** Writing the next value after a written front keeps "front, then zeros". */
  lemma WriteNext(a: seq<int>, front: seq<int>, v: int)
    requires |front| < |a| && a == front + Zeros(|a| - |front|)
    ensures a[|front| := v] == (front + [v]) + Zeros(|a| - |front| - 1)
  {
    var b := a[|front| := v];
    var e := (front + [v]) + Zeros(|a| - |front| - 1);
    assert |b| == |e|;
    forall j | 0 <= j < |b| ensures b[j] == e[j] {
      if j < |front| { assert b[j] == a[j] == front[j]; }
      else if j > |front| { assert a[j] == Zeros(|a| - |front|)[j - |front|] == 0; }
    }
  }
}
