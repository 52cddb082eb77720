/** The three loops of ProcessLine, over the engine's line buffers: compact
    the tiles towards index 0, merge equal neighbours in one pass, and compare
    the result with the input. Each is proved against module Lines. */
module LineArrays {
  import opened Lines

  /** Step 1: the tiles of the line in order, zeros after them. */
  method CompactLine(line: array<int>) returns (compacted: array<int>, compactIndex: nat)
    requires line.Length == Size
    ensures fresh(compacted) && compacted.Length == Size
    ensures compactIndex <= Size && compacted[..compactIndex] == Compact(line[..])
    ensures forall j :: 0 <= j < compactIndex ==> compacted[j] != 0
    ensures forall j :: compactIndex <= j < Size ==> compacted[j] == 0
  {
    compacted := new int[Size](_ => 0);
    compactIndex := 0;
    var i := 0;
    while i < Size
      invariant 0 <= compactIndex <= i <= Size
      invariant compacted[..compactIndex] == Compact(line[..i])
      invariant forall j :: compactIndex <= j < Size ==> compacted[j] == 0
    {
      if line[i] != 0 {
        compacted[compactIndex] := line[i];
        compactIndex := compactIndex + 1;
      }
      assert line[..i + 1][..i] == line[..i];
      i := i + 1;
    }
    assert line[..Size] == line[..];
    CompactNoZero(line[..]);
    assert forall j :: 0 <= j < compactIndex ==> compacted[..compactIndex][j] in Compact(line[..]);
  }

  /** Step 2: one left-to-right pass that doubles the first of two equal
      neighbours and skips the second, so no tile merges twice; the gain is
      the sum of the doubled values. */
  method MergeCompacted(compacted: array<int>, compactIndex: nat) returns (result: array<int>, gain: int)
    requires compacted.Length == Size && compactIndex <= Size
    requires forall j :: 0 <= j < compactIndex ==> compacted[j] != 0
    requires forall j :: compactIndex <= j < Size ==> compacted[j] == 0
    ensures fresh(result) && result.Length == Size
    ensures result[..] == Merge(compacted[..compactIndex]) + Zeros(Size - |Merge(compacted[..compactIndex])|)
    ensures gain == MergeGain(compacted[..compactIndex])
  {
    ghost var c := compacted[..compactIndex];
    ghost var out: seq<int> := [];
    MergeWalkIsMerge(c);
    result := new int[Size](_ => 0);
    assert result[..] == Zeros(Size);
    var writeIndex := 0;
    gain := 0;
    var i := 0;
    while i < Size
      invariant 0 <= writeIndex <= i <= compactIndex
      invariant |out| == writeIndex
      invariant result[..] == out + Zeros(Size - writeIndex)
      invariant MergeWalk(c, i, out, gain) == (Merge(c), MergeGain(c))
    {
      if compacted[i] == 0 {
        break;
      }
      assert compacted[i] == c[i];
      if i + 1 < Size && compacted[i] == compacted[i + 1] && compacted[i] != 0 {
        WriteNext(result[..], out, 2 * c[i]);
        result[writeIndex] := 2 * compacted[i];
        out := out + [2 * c[i]];
        writeIndex := writeIndex + 1;
        gain := gain + 2 * compacted[i];
        i := i + 1;
      } else {
        WriteNext(result[..], out, c[i]);
        result[writeIndex] := compacted[i];
        out := out + [c[i]];
        writeIndex := writeIndex + 1;
      }
      i := i + 1;
    }
  }

  /** Step 3: whether any cell of the line changed. */
  method LineChanged(line: array<int>, result: array<int>) returns (moved: bool)
    requires line.Length == Size && result.Length == Size
    ensures moved <==> result[..] != line[..]
  {
    moved := false;
    var i := 0;
    while i < Size
      invariant 0 <= i <= Size
      invariant line[..i] == result[..i]
    {
      if line[i] != result[i] {
        moved := true;
        break;
      }
      assert line[..i + 1] == line[..i] + [line[i]];
      assert result[..i + 1] == result[..i] + [result[i]];
      i := i + 1;
    }
  }
}
