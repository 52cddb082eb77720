/** What the solvers share: the random draws one step of play takes, and the
    loop that keeps the best-valued move, replacing it only on a strictly
    larger value, so that ties keep the earlier move. */
module Choice {

  datatype Option<T> = None | Some(value: T)

  /** The random numbers one step of play takes: `pick` chooses among the
      available moves, `slotDraw` and `valueDraw` feed the spawn that
      follows the move. */
  datatype Draw = Draw(pick: nat, slotDraw: nat, valueDraw: nat)

  /** One random number stream: the draws of successive steps. A run uses
      finitely many random numbers, so every run is covered by some finite
      stream; positions past the end of a stream read as zeros. */
  type Stream = seq<Draw>

  /** Draw number i of a stream. */
  function DrawAt(stream: Stream, i: nat): Draw
  {
    if i < |stream| then stream[i] else Draw(0, 0, 0)
  }

  /** Stream number i of a list of streams; positions past the end are empty. */
  function StreamAt(streams: seq<Stream>, i: nat): Stream
  {
    if i < |streams| then streams[i] else []
  }

  /** List number i of a list of stream lists; positions past the end are empty. */
  function StreamsAt(rollouts: seq<seq<Stream>>, i: nat): seq<Stream>
  {
    if i < |rollouts| then rollouts[i] else []
  }

  /** `v` replaces the kept value `best`: it is a number, and either nothing
      has been kept (the lowest possible sentinel) or it is strictly larger.
      A missing value (a NaN average) never replaces anything. */
  predicate Beats(v: Option<real>, best: Option<real>)
  {
    v.Some? && (best.None? || v.value > best.value)
  }

  /** The selection loop from position i on, holding the kept position and
      the kept value. */
  function BestFrom(vals: seq<Option<real>>, i: nat, index: nat, best: Option<real>): (nat, Option<real>)
    decreases |vals| - i
  {
    if i >= |vals| then (index, best)
    else if Beats(vals[i], best) then BestFrom(vals, i + 1, i, vals[i])
    else BestFrom(vals, i + 1, index, best)
  }

  /** The position the selection loop returns, starting with position 0 and
      the kept value `start`. */
  function BestIndex(vals: seq<Option<real>>, start: Option<real>): nat
  {
    BestFrom(vals, 0, 0, start).0
  }

  /** What the selection loop knows after the first i positions: nothing
      seen beats the kept value, and either nothing has beaten `start` and
      position 0 is kept, or the kept position holds the kept value, beats
      `start` and strictly beats every earlier position. */
  predicate Kept(vals: seq<Option<real>>, i: nat, index: nat, best: Option<real>, start: Option<real>)
    requires i <= |vals|
  {
    && index < |vals|
    && (forall k :: 0 <= k < i ==> !Beats(vals[k], best))
    && ((best == start && index == 0 && forall k :: 0 <= k < i ==> !Beats(vals[k], start))
        || (index < i && best == vals[index] && Beats(vals[index], start)
            && forall k :: 0 <= k < index ==> Beats(vals[index], vals[k])))
  }

  lemma {:induction false} BestFromKeeps(vals: seq<Option<real>>, i: nat, index: nat, best: Option<real>,
                                         start: Option<real>)
    requires i <= |vals| && Kept(vals, i, index, best, start)
    ensures var (j, b) := BestFrom(vals, i, index, best); Kept(vals, |vals|, j, b, start)
    decreases |vals| - i
  {
    if i < |vals| {
      if Beats(vals[i], best) {
        var v := vals[i];
        forall k | 0 <= k < i + 1 ensures !Beats(vals[k], v) {
          if k < i {
            assert !Beats(vals[k], best);
          }
        }
        forall k | 0 <= k < i ensures Beats(v, vals[k]) {
          assert !Beats(vals[k], best);
        }
        BestFromKeeps(vals, i + 1, i, v, start);
      } else {
        BestFromKeeps(vals, i + 1, index, best, start);
      }
    }
  }

  /** The solvers' selection is a first maximum: the chosen position is a
      valid one; nothing beats the chosen value; and either nothing beats
      `start` and position 0 is chosen, or the chosen value beats `start`
      and strictly beats every earlier value. */
  lemma FirstBest(vals: seq<Option<real>>, start: Option<real>)
    requires |vals| > 0
    ensures var (j, b) := BestFrom(vals, 0, 0, start);
      && j == BestIndex(vals, start) && j < |vals|
      && (forall k :: 0 <= k < |vals| ==> !Beats(vals[k], b))
      && ((b == start && j == 0 && forall k :: 0 <= k < |vals| ==> !Beats(vals[k], start))
          || (b == vals[j] && Beats(vals[j], start) && forall k :: 0 <= k < j ==> Beats(vals[j], vals[k])))
  {
    BestFromKeeps(vals, 0, 0, start, start);
  }

  /** With numbers only, the chosen position holds the largest number, and
      every earlier position a strictly smaller one, whenever some number
      beats `start`. */
  lemma FirstMaximum(vals: seq<Option<real>>, start: Option<real>)
    requires |vals| > 0 && forall k :: 0 <= k < |vals| ==> vals[k].Some?
    requires exists k :: 0 <= k < |vals| && Beats(vals[k], start)
    ensures var j := BestIndex(vals, start);
      && j < |vals|
      && (forall k :: 0 <= k < |vals| ==> vals[k].value <= vals[j].value)
      && (forall k :: 0 <= k < j ==> vals[k].value < vals[j].value)
  {
    FirstBest(vals, start);
  }

  /** When nothing can beat `start` (every value missing, or none above it),
      position 0 is chosen. */
  lemma NothingBeatsStart(vals: seq<Option<real>>, start: Option<real>)
    requires |vals| > 0 && forall k :: 0 <= k < |vals| ==> !Beats(vals[k], start)
    ensures BestIndex(vals, start) == 0
  {
    FirstBest(vals, start);
  }

  /** Position j holds a number at least every number of vals, and strictly
      larger than every number before it. */
  predicate IsFirstMaximum(vals: seq<Option<real>>, j: nat)
  {
    && j < |vals| && vals[j].Some?
    && (forall k :: 0 <= k < |vals| ==> vals[k].Some? && vals[k].value <= vals[j].value)
    && (forall k :: 0 <= k < j ==> vals[k].value < vals[j].value)
  }

  /** Choosing among numbers from a threshold: the first position when no
      number beats the threshold, otherwise the first maximum. */
  lemma ThresholdChoice(vals: seq<Option<real>>, start: Option<real>)
    requires |vals| > 0 && forall k :: 0 <= k < |vals| ==> vals[k].Some?
    ensures var j := BestIndex(vals, start);
      && j < |vals|
      && ((forall k :: 0 <= k < |vals| ==> !Beats(vals[k], start)) ==> j == 0)
      && ((exists k :: 0 <= k < |vals| && Beats(vals[k], start)) ==> IsFirstMaximum(vals, j))
  {
    FirstBest(vals, start);
    if exists k :: 0 <= k < |vals| && Beats(vals[k], start) {
      FirstMaximum(vals, start);
    } else {
      NothingBeatsStart(vals, start);
    }
  }

  // ---------------------------------------------------------------------
  // Summing and averaging

  /** The first n values of f, in order; none for n <= 0. */
  function Prefix<T>(n: int, f: nat -> T): seq<T>
  {
    var count := if n > 0 then n else 0;
    seq(count, i requires 0 <= i < count => f(i))
  }

  /** One more value adds f's next value at the end of a prefix. */
  lemma PrefixSnoc<T>(n: nat, f: nat -> T)
    ensures Prefix(n + 1, f) == Prefix(n, f) + [f(n)]
  {
    assert Prefix(n + 1, f)[..n] == Prefix(n, f);
  }

  /** The sum of a list of evaluations. */
  function Total(vals: seq<int>): int
  {
    if |vals| == 0 then 0 else Total(vals[..|vals| - 1]) + vals[|vals| - 1]
  }

  /** Adding one more evaluation adds it to the sum. */
  lemma TotalSnoc(vals: seq<int>, x: int)
    ensures Total(vals + [x]) == Total(vals) + x
  {
    assert (vals + [x])[..|vals|] == vals;
  }

  /** totalScore / simulationsPerMove in double arithmetic: NaN (None) when
      there are no simulations. */
  function Average(total: int, sims: int): (avg: Option<real>)
    ensures avg.Some? <==> sims != 0
  {
    if sims == 0 then None else Some(total as real / sims as real)
  }

  /** The average of a sum that is at least 0 over a positive count is a
      number of at least 0. */
  lemma AverageAtLeastZero(total: int, sims: int)
    requires total >= 0 && sims > 0
    ensures Average(total, sims).Some? && Average(total, sims).value >= 0.0
  {
    assert total as real >= 0.0 && sims as real > 0.0;
  }

  /** The average of each total, in order. */
  function Averages(totals: seq<int>, sims: int): (avgs: seq<Option<real>>)
    ensures |avgs| == |totals|
  {
    if |totals| == 0 then []
    else Averages(totals[..|totals| - 1], sims) + [Average(totals[|totals| - 1], sims)]
  }

  /** Position k of the averages is the average of total k. */
  lemma {:induction false} AveragesAt(totals: seq<int>, sims: int, k: nat)
    requires k < |totals|
    ensures Averages(totals, sims)[k] == Average(totals[k], sims)
  {
    var last := |totals| - 1;
    if k < last {
      AveragesAt(totals[..last], sims, k);
    }
  }

  /** Choosing by the averages: the first position without simulations (all
      averages NaN), otherwise the first maximum of the averages. */
  lemma AveragesChoice(totals: seq<int>, sims: int)
    requires |totals| > 0
    ensures var avgs := Averages(totals, sims);
      var j := BestIndex(avgs, None);
      && j < |totals|
      && (sims == 0 ==> j == 0)
      && (sims != 0 ==> IsFirstMaximum(avgs, j))
  {
    var avgs := Averages(totals, sims);
    forall k | 0 <= k < |totals|
      ensures avgs[k].Some? <==> sims != 0
    {
      AveragesAt(totals, sims, k);
    }
    FirstBest(avgs, None);
    if sims == 0 {
      NothingBeatsStart(avgs, None);
      assert BestIndex(avgs, None) == 0;
    } else {
      assert Beats(avgs[0], None);
      FirstMaximum(avgs, None);
      assert IsFirstMaximum(avgs, BestIndex(avgs, None));
    }
  }
}
