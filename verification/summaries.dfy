/** The summary of a solver's games: counts, the best, worst, average and
    median score, the best and average largest tile, the average move
    counts and the durations. Averages are reals; a duration is a whole
    number of ticks. */
module Summaries {
  import opened GameStatistics

  datatype SolverSummary = SolverSummary(
    solverName: string,
    gamesPlayed: int,
    bestScore: int,
    worstScore: int,
    averageScore: real,
    medianScore: real,
    winCount: int,
    lossCount: int,
    bestMaxTile: int,
    averageMaxTile: real,
    averageTotalMoves: real,
    averageMovesUp: real,
    averageMovesDown: real,
    averageMovesLeft: real,
    averageMovesRight: real,
    totalDuration: int,
    averageDuration: real)

  /** The summary a new SolverSummary object holds: every field at its
      default. */
  const EmptySummary := SolverSummary("", 0, 0, 0, 0.0, 0.0, 0, 0, 0, 0.0, 0.0, 0.0, 0.0, 0.0, 0.0, 0, 0.0)

  // ---------------------------------------------------------------------
  // Columns of the records and aggregates over them

  /** The integer fields of a record that the summary aggregates. */
  datatype Column = Scores | MaxTiles | TotalMoves | MovesUp | MovesDown | MovesLeft | MovesRight | Durations

  function Get(r: GameStats, c: Column): int
  {
    match c
    case Scores => r.finalScore
    case MaxTiles => r.maxTile
    case TotalMoves => r.totalMoves
    case MovesUp => r.movesUp
    case MovesDown => r.movesDown
    case MovesLeft => r.movesLeft
    case MovesRight => r.movesRight
    case Durations => r.duration
  }

  /** One field of every record, in order. */
  function Select(rs: seq<GameStats>, c: Column): seq<int>
  {
    seq(|rs|, i requires 0 <= i < |rs| => Get(rs[i], c))
  }

  function Sum(xs: seq<int>): int
  {
    if |xs| == 0 then 0 else Sum(xs[..|xs| - 1]) + xs[|xs| - 1]
  }

  /** The mean of a field over a non-empty list of records. */
  function Mean(rs: seq<GameStats>, c: Column): real
    requires |rs| > 0
  {
    Sum(Select(rs, c)) as real / |rs| as real
  }

  /** avg is the mean of a field over a non-empty list of records: it
      times the number of records is the field's sum. */
  predicate IsMeanOf(avg: real, rs: seq<GameStats>, c: Column)
  {
    avg * |rs| as real == Sum(Select(rs, c)) as real
  }

  /** Mean computes the mean. */
  lemma MeanIsMeanOf(rs: seq<GameStats>, c: Column)
    requires |rs| > 0
    ensures IsMeanOf(Mean(rs, c), rs, c)
  {
    var total, n := Sum(Select(rs, c)) as real, |rs| as real;
    assert (total / n) * n == total;
  }

  /** The largest value of a non-empty list. */
  function MaxOf(xs: seq<int>): (m: int)
    requires |xs| > 0
    ensures m in xs
    ensures forall i :: 0 <= i < |xs| ==> xs[i] <= m
  {
    if |xs| == 1 then xs[0]
    else
      var m := MaxOf(xs[..|xs| - 1]);
      if xs[|xs| - 1] > m then xs[|xs| - 1] else m
  }

  /** The smallest value of a non-empty list. */
  function MinOf(xs: seq<int>): (m: int)
    requires |xs| > 0
    ensures m in xs
    ensures forall i :: 0 <= i < |xs| ==> m <= xs[i]
  {
    if |xs| == 1 then xs[0]
    else
      var m := MinOf(xs[..|xs| - 1]);
      if xs[|xs| - 1] < m then xs[|xs| - 1] else m
  }

  /** The number of records whose "won" flag is `won`. */
  function CountWon(rs: seq<GameStats>, won: bool): (n: int)
    ensures 0 <= n <= |rs|
    ensures n == 0 <==> forall i :: 0 <= i < |rs| ==> rs[i].won != won
  {
    if |rs| == 0 then 0
    else CountWon(rs[..|rs| - 1], won) + (if rs[|rs| - 1].won == won then 1 else 0)
  }

  /** Every record is counted either as a win or as a loss. */
  lemma {:induction false} WinsAndLossesPartition(rs: seq<GameStats>)
    ensures CountWon(rs, true) + CountWon(rs, false) == |rs|
  {
    if |rs| > 0 {
      WinsAndLossesPartition(rs[..|rs| - 1]);
    }
  }

  /** A sum of n values between lo and hi lies between n·lo and n·hi. */
  lemma {:induction false} SumBetween(xs: seq<int>, lo: int, hi: int)
    requires forall i :: 0 <= i < |xs| ==> lo <= xs[i] <= hi
    ensures |xs| * lo <= Sum(xs) <= |xs| * hi
  {
    if |xs| > 0 {
      var n := |xs| - 1;
      SumBetween(xs[..n], lo, hi);
      OneMore(n, lo);
      OneMore(n, hi);
    }
  }

  lemma OneMore(n: int, x: int)
    ensures (n + 1) * x == n * x + x
  {
  }

  /** The mean of a field lies between its smallest and largest value. */
  lemma MeanBetween(rs: seq<GameStats>, c: Column)
    requires |rs| > 0
    ensures var xs := Select(rs, c); MinOf(xs) as real <= Mean(rs, c) <= MaxOf(xs) as real
  {
    var xs := Select(rs, c);
    var lo, hi := MinOf(xs), MaxOf(xs);
    SumBetween(xs, lo, hi);
    QuotientBetween(Sum(xs), |rs|, lo, hi);
  }

  /** s/n lies between lo and hi when s lies between n·lo and n·hi. */
  lemma QuotientBetween(s: int, n: int, lo: int, hi: int)
    requires n > 0 && n * lo <= s <= n * hi
    ensures lo as real <= s as real / n as real <= hi as real
  {
    var q := s as real / n as real;
    assert q * n as real == s as real;
    assert (n * lo) as real == lo as real * n as real;
    assert (n * hi) as real == hi as real * n as real;
  }

  /** The extremes of a non-empty column are values of it and bound it. */
  lemma ColumnExtremes(rs: seq<GameStats>, c: Column)
    requires |rs| > 0
    ensures var xs := Select(rs, c);
      && (forall i :: 0 <= i < |rs| ==> MinOf(xs) <= Get(rs[i], c) <= MaxOf(xs))
      && (exists i :: 0 <= i < |rs| && Get(rs[i], c) == MaxOf(xs))
      && (exists i :: 0 <= i < |rs| && Get(rs[i], c) == MinOf(xs))
  {
    var xs := Select(rs, c);
    assert forall i :: 0 <= i < |rs| ==> xs[i] == Get(rs[i], c);
    assert MaxOf(xs) in xs && MinOf(xs) in xs;
    var i :| 0 <= i < |xs| && xs[i] == MaxOf(xs);
    var j :| 0 <= j < |xs| && xs[j] == MinOf(xs);
    assert Get(rs[i], c) == MaxOf(xs) && Get(rs[j], c) == MinOf(xs);
  }

  /** The sum of a field that is the sum of four others is the sum of their
      sums. */
  lemma {:induction false} SumOfParts(rs: seq<GameStats>)
    requires forall i :: 0 <= i < |rs| ==>
      rs[i].totalMoves == rs[i].movesUp + rs[i].movesDown + rs[i].movesLeft + rs[i].movesRight
    ensures Sum(Select(rs, TotalMoves))
      == Sum(Select(rs, MovesUp)) + Sum(Select(rs, MovesDown)) + Sum(Select(rs, MovesLeft)) + Sum(Select(rs, MovesRight))
  {
    if |rs| > 0 {
      var front := rs[..|rs| - 1];
      SumOfParts(front);
      forall c ensures Select(rs, c)[..|rs| - 1] == Select(front, c) {
      }
    }
  }

  // ---------------------------------------------------------------------
  // The median

  predicate Sorted(t: seq<int>)
  {
    forall i, j :: 0 <= i < j < |t| ==> t[i] <= t[j]
  }

  /** x inserted into a sorted list at its place. */
  function Insert(x: int, t: seq<int>): (u: seq<int>)
    requires Sorted(t)
    ensures Sorted(u) && multiset(u) == multiset(t) + multiset{x}
  {
    if |t| == 0 then [x]
    else if x <= t[0] then [x] + t
    else
      var rest := Insert(x, t[1..]);
      InsertAfterHead(x, t, rest);
      [t[0]] + rest
  }

  /** Putting the head of a sorted list before x inserted into its tail,
      when the head is below x, keeps the list sorted and adds x. */
  lemma InsertAfterHead(x: int, t: seq<int>, rest: seq<int>)
    requires Sorted(t) && |t| > 0 && t[0] < x
    requires Sorted(rest) && multiset(rest) == multiset(t[1..]) + multiset{x}
    ensures Sorted([t[0]] + rest) && multiset([t[0]] + rest) == multiset(t) + multiset{x}
  {
    assert t == [t[0]] + t[1..];
    forall k | 0 <= k < |rest| ensures t[0] <= rest[k] {
      assert rest[k] in multiset(rest);
      if rest[k] != x {
        assert rest[k] in t[1..];
      }
    }
  }

  /** The numbers in ascending order. */
  function Sort(xs: seq<int>): (t: seq<int>)
    ensures Sorted(t) && multiset(t) == multiset(xs)
  {
    if |xs| == 0 then []
    else
      assert xs == [xs[0]] + xs[1..];
      Insert(xs[0], Sort(xs[1..]))
  }

  /** A list has a single ascending order: two sorted lists with the same
      elements are equal. */
  lemma {:induction false} SortedUnique(a: seq<int>, b: seq<int>)
    requires Sorted(a) && Sorted(b) && multiset(a) == multiset(b)
    ensures a == b
  {
    SameLength(a, b);
    if |a| > 0 {
      SameHead(a, b);
      SameTails(a, b);
      TailElements(a);
      TailElements(b);
      SortedUnique(a[1..], b[1..]);
      assert a == [a[0]] + a[1..] && b == [b[0]] + b[1..];
    }
  }

  lemma SameLength(a: seq<int>, b: seq<int>)
    requires multiset(a) == multiset(b)
    ensures |a| == |b|
  {
    assert |a| == |multiset(a)| && |b| == |multiset(b)|;
  }

  /** Two sorted non-empty lists with the same elements start alike. */
  lemma SameHead(a: seq<int>, b: seq<int>)
    requires Sorted(a) && Sorted(b) && multiset(a) == multiset(b) && |a| > 0 && |b| > 0
    ensures a[0] == b[0]
  {
    assert b[0] in multiset(b) && a[0] in multiset(a);
    HeadIsLeast(a, b[0]);
    HeadIsLeast(b, a[0]);
  }

  /** Lists with the same elements and the same head have tails with the
      same elements. */
  lemma SameTails(a: seq<int>, b: seq<int>)
    requires multiset(a) == multiset(b) && |a| > 0 && |b| > 0 && a[0] == b[0]
    ensures multiset(a[1..]) == multiset(b[1..])
  {
    TailElements(a);
    TailElements(b);
  }

  /** The tail of a list holds its elements but its head; a tail of a
      sorted list is sorted. */
  lemma TailElements(t: seq<int>)
    requires |t| > 0
    ensures multiset(t[1..]) == multiset(t) - multiset{t[0]}
    ensures Sorted(t) ==> Sorted(t[1..])
  {
    assert t == [t[0]] + t[1..];
  }

  /** The head of a sorted list is at most any of its elements. */
  lemma HeadIsLeast(t: seq<int>, x: int)
    requires Sorted(t) && x in multiset(t)
    ensures t[0] <= x
  {
    assert x in t;
    var k :| 0 <= k < |t| && t[k] == x;
  }

  /** The middle of a sorted list: 0 when it is empty, the middle value for
      an odd count, the mean of the two middle values for an even count. */
  function Middle(t: seq<int>): real
  {
    var count := |t|;
    if count == 0 then 0.0
    else if count % 2 == 0 then (t[count / 2 - 1] + t[count / 2]) as real / 2.0
    else t[count / 2] as real
  }

  /** GetMedian: the middle of the numbers in ascending order. */
  function GetMedian(numbers: seq<int>): (m: real)
    ensures |numbers| == 0 ==> m == 0.0
    ensures |numbers| > 0 ==> MinOf(numbers) as real <= m <= MaxOf(numbers) as real
    ensures |numbers| % 2 == 1 ==> exists x :: x in numbers && m == x as real
  {
    var sorted := Sort(numbers);
    MiddleOfPermutation(numbers, sorted);
    Middle(sorted)
  }

  /** The middle of a rearrangement of the numbers lies between their
      smallest and largest value, and is one of them for an odd count. */
  lemma MiddleOfPermutation(numbers: seq<int>, t: seq<int>)
    requires multiset(t) == multiset(numbers)
    ensures |t| == |numbers|
    ensures |t| > 0 ==> MinOf(numbers) as real <= Middle(t) <= MaxOf(numbers) as real
    ensures |t| % 2 == 1 ==> exists x :: x in numbers && Middle(t) == x as real
  {
    var count := |t|;
    assert count == |multiset(t)| == |multiset(numbers)| == |numbers|;
    if count > 0 {
      var hi, lo := t[count / 2], t[(count - 1) / 2];
      assert hi in multiset(numbers) && lo in multiset(numbers);
      assert hi in numbers && lo in numbers;
      assert count % 2 == 0 ==> count / 2 - 1 == (count - 1) / 2;
    }
  }

  /** The median does not depend on how the numbers are sorted: it is the
      middle of any ascending arrangement of them. */
  lemma MedianOfAnyOrdering(numbers: seq<int>, t: seq<int>)
    requires Sorted(t) && multiset(t) == multiset(numbers)
    ensures GetMedian(numbers) == Middle(t)
  {
    SortedUnique(Sort(numbers), t);
  }

  // ---------------------------------------------------------------------
  // CalculateStatistics

  /** The summary of a solver's records: the default summary for no
      records; otherwise the first record's solver name, the count, the
      score extremes, mean and median, the win and loss counts, the largest
      tile and the field means, and the total and mean duration. */
  function CalculateStatistics(results: seq<GameStats>): (s: SolverSummary)
    ensures |results| == 0 ==> s == EmptySummary
    ensures |results| > 0 ==>
      && s.solverName == results[0].solverName
      && s.gamesPlayed == |results|
      && s.winCount + s.lossCount == s.gamesPlayed
      && 0 <= s.winCount && 0 <= s.lossCount
      && (s.winCount == 0 <==> forall i :: 0 <= i < |results| ==> !results[i].won)
      && (s.lossCount == 0 <==> forall i :: 0 <= i < |results| ==> results[i].won)
      && (forall i :: 0 <= i < |results| ==> s.worstScore <= results[i].finalScore <= s.bestScore)
      && (exists i :: 0 <= i < |results| && results[i].finalScore == s.bestScore)
      && (exists i :: 0 <= i < |results| && results[i].finalScore == s.worstScore)
      && IsMeanOf(s.averageScore, results, Scores)
      && s.worstScore as real <= s.averageScore <= s.bestScore as real
      && s.medianScore == GetMedian(Select(results, Scores))
      && s.worstScore as real <= s.medianScore <= s.bestScore as real
      && IsMeanOf(s.averageMaxTile, results, MaxTiles)
      && IsMeanOf(s.averageTotalMoves, results, TotalMoves)
      && IsMeanOf(s.averageMovesUp, results, MovesUp)
      && IsMeanOf(s.averageMovesDown, results, MovesDown)
      && IsMeanOf(s.averageMovesLeft, results, MovesLeft)
      && IsMeanOf(s.averageMovesRight, results, MovesRight)
      && s.totalDuration == Sum(Select(results, Durations))
      && IsMeanOf(s.averageDuration, results, Durations)
      && (forall i :: 0 <= i < |results| ==> results[i].maxTile <= s.bestMaxTile)
      && (exists i :: 0 <= i < |results| && results[i].maxTile == s.bestMaxTile)
      && s.averageDuration == s.totalDuration as real / s.gamesPlayed as real
      && ((forall i :: 0 <= i < |results| ==>
             results[i].totalMoves == results[i].movesUp + results[i].movesDown + results[i].movesLeft + results[i].movesRight)
          ==> s.averageTotalMoves == s.averageMovesUp + s.averageMovesDown + s.averageMovesLeft + s.averageMovesRight)
  {
    if |results| == 0 then EmptySummary
    else
      var scores := Select(results, Scores);
      var maxTiles := Select(results, MaxTiles);
      var durations := Select(results, Durations);
      WinsAndLossesPartition(results);
      MeanBetween(results, Scores);
      MeanOfParts(results);
      ColumnExtremes(results, Scores);
      ColumnExtremes(results, MaxTiles);
      forall c ensures IsMeanOf(Mean(results, c), results, c) {
        MeanIsMeanOf(results, c);
      }
      var median := GetMedian(scores);
      assert MinOf(scores) as real <= median <= MaxOf(scores) as real;
      SolverSummary(
        results[0].solverName,
        |results|,
        MaxOf(scores),
        MinOf(scores),
        Mean(results, Scores),
        median,
        CountWon(results, true),
        CountWon(results, false),
        MaxOf(maxTiles),
        Mean(results, MaxTiles),
        Mean(results, TotalMoves),
        Mean(results, MovesUp),
        Mean(results, MovesDown),
        Mean(results, MovesLeft),
        Mean(results, MovesRight),
        Sum(durations),
        Mean(results, Durations))
  }

  /** Records of finished games of one solver: each carries the solver's
      name, says "won" exactly when its largest tile reached the winning
      value, and has a move total that is the sum of its four counters. */
  predicate GameRecords(rs: seq<GameStats>, name: string, winValue: int)
  {
    forall i :: 0 <= i < |rs| ==>
      && rs[i].solverName == name
      && (rs[i].won <==> rs[i].maxTile >= winValue)
      && rs[i].totalMoves == rs[i].movesUp + rs[i].movesDown + rs[i].movesLeft + rs[i].movesRight
  }

  /** The summary of a solver's game records names the solver, has a win
      exactly when its best tile reached the winning value, and has a mean
      move total that is the sum of its four mean counters. */
  lemma SummaryOfGameRecords(results: seq<GameStats>, name: string, winValue: int)
    requires |results| > 0 && GameRecords(results, name, winValue)
    ensures var s := CalculateStatistics(results);
      && s.solverName == name
      && s.gamesPlayed == |results|
      && (s.winCount > 0 <==> s.bestMaxTile >= winValue)
      && s.averageTotalMoves == s.averageMovesUp + s.averageMovesDown + s.averageMovesLeft + s.averageMovesRight
  {
  }

  /** When every record's move total is the sum of its four counters, as
      every record of a game is, the mean move total is the sum of the four
      mean counters. */
  lemma MeanOfParts(rs: seq<GameStats>)
    requires |rs| > 0
    ensures (forall i :: 0 <= i < |rs| ==>
               rs[i].totalMoves == rs[i].movesUp + rs[i].movesDown + rs[i].movesLeft + rs[i].movesRight)
      ==> Mean(rs, TotalMoves) == Mean(rs, MovesUp) + Mean(rs, MovesDown) + Mean(rs, MovesLeft) + Mean(rs, MovesRight)
  {
    if forall i :: 0 <= i < |rs| ==>
         rs[i].totalMoves == rs[i].movesUp + rs[i].movesDown + rs[i].movesLeft + rs[i].movesRight {
      SumOfParts(rs);
      var n := |rs| as real;
      var u, d, l, r := Sum(Select(rs, MovesUp)), Sum(Select(rs, MovesDown)),
                        Sum(Select(rs, MovesLeft)), Sum(Select(rs, MovesRight));
      QuotientsAdd(u as real, d as real, n);
      QuotientsAdd((u + d) as real, l as real, n);
      QuotientsAdd((u + d + l) as real, r as real, n);
    }
  }

  lemma QuotientsAdd(x: real, y: real, n: real)
    requires n > 0.0
    ensures (x + y) / n == x / n + y / n
  {
  }
}
