/** The score aggregator of score.py: each method's rank records, weighted
    by how high the method ranked and how recent the paper is, become one
    score per method, and the scores are listed best first. */
module Score {
  import opened Ranking

  // ---------------------------------------------------------------------
  // Weights
  // ---------------------------------------------------------------------

  /** `get_rank_weights`: full weight for second place, 0.1 less for every
      place below it, never negative. */
  function RankWeight(rank: int): (w: real)
    ensures w >= 0.0
    ensures rank == 2 ==> w == 1.0
    ensures rank >= 2 ==> w <= 1.0
    ensures rank >= 12 ==> w == 0.0
    ensures 2 <= rank < 12 ==> w > 0.0
  {
    var raw := 1.0 - 0.1 * ((rank - 2) as real);
    if raw >= 0.0 then raw else 0.0
  }

  /** Between second and twelfth place each place costs exactly 0.1. */
  lemma RankWeightStep(rank: int)
    requires 2 <= rank < 12
    ensures RankWeight(rank + 1) == RankWeight(rank) - 0.1
  {
  }

  /** `get_time_weights`: full weight for a paper without a year, otherwise
      0.1 less for every year between the paper and `currentYear` (the
      clock's year), never negative. */
  function TimeWeight(year: int, currentYear: int): (w: real)
    ensures w >= 0.0
    ensures year == -1 ==> w == 1.0
    ensures year != -1 && currentYear - year >= 10 ==> w == 0.0
    ensures year != -1 && year <= currentYear ==> w <= 1.0
    ensures year == currentYear ==> w == 1.0
  {
    if year == -1 then 1.0
    else
      var raw := 1.0 - 0.1 * ((currentYear - year) as real);
      if raw >= 0.0 then raw else 0.0
  }

  /** Each year further back costs exactly 0.1 while the paper is less
      than ten years old. Year 0 is excluded: the year before it is the
      undated marker -1. */
  lemma TimeWeightStep(year: int, currentYear: int)
    requires year != -1 && year != 0 && 0 <= currentYear - year < 10
    ensures TimeWeight(year - 1, currentYear) == TimeWeight(year, currentYear) - 0.1
  {
  }

  /** A paper without a year, or dated 0, is tagged -1 and so weighs as
      much as a current paper. */
  lemma UndatedFullWeight(year: Option<int>, currentYear: int)
    requires year.None? || year.value == 0
    ensures TimeWeight(YearOf(year), currentYear) == 1.0
  {
  }

  // ---------------------------------------------------------------------
  // The rankings table
  // ---------------------------------------------------------------------

  /** A row filter `df[df[column] == value]`. */
  datatype Column = Method(name: string) | Year(year: int) | Rank(rank: int)

  predicate Matches(x: Record, c: Column) {
    match c
    case Method(name) => x.name == name
    case Year(year) => x.year == year
    case Rank(rank) => x.rank == rank
  }

  /** The rows that match, in table order. */
  function Select(rows: seq<Record>, c: Column): seq<Record> {
    if rows == [] then []
    else Select(rows[..|rows| - 1], c) + (if Matches(rows[|rows| - 1], c) then [rows[|rows| - 1]] else [])
  }

  /** The filter keeps exactly the matching rows. */
  lemma {:induction false} SelectMembers(rows: seq<Record>, c: Column)
    ensures forall x :: x in Select(rows, c) <==> x in rows && Matches(x, c)
  {
    if rows != [] {
      var init := rows[..|rows| - 1];
      SelectMembers(init, c);
      assert rows == init + [rows[|rows| - 1]];
    }
  }

  /** A filter applied to the table with one more row. */
  lemma SelectSnoc(rows: seq<Record>, x: Record, c: Column)
    ensures Select(rows + [x], c) == Select(rows, c) + (if Matches(x, c) then [x] else [])
  {
    assert (rows + [x])[..|rows|] == rows;
  }

  /** The `method` column of the rankings table. */
  function Names(rows: seq<Record>): (r: seq<string>)
    ensures |r| == |rows| && forall i :: 0 <= i < |rows| ==> r[i] == rows[i].name
  {
    seq(|rows|, i requires 0 <= i < |rows| => rows[i].name)
  }

  function Years(rows: seq<Record>): (r: seq<int>)
    ensures |r| == |rows| && forall i :: 0 <= i < |rows| ==> r[i] == rows[i].year
  {
    seq(|rows|, i requires 0 <= i < |rows| => rows[i].year)
  }

  function Papers(rows: seq<Record>): (r: seq<string>)
    ensures |r| == |rows| && forall i :: 0 <= i < |rows| ==> r[i] == rows[i].paper
  {
    seq(|rows|, i requires 0 <= i < |rows| => rows[i].paper)
  }

  predicate Distinct<T(==)>(xs: seq<T>) {
    forall i, j :: 0 <= i < j < |xs| ==> xs[i] != xs[j]
  }

  /** A column's `unique()`: every value once, in order of first appearance. */
  function Unique<T(==,!new)>(xs: seq<T>): (r: seq<T>)
    ensures Distinct(r)
    ensures forall x :: x in r <==> x in xs
  {
    if xs == [] then []
    else
      var init := xs[..|xs| - 1];
      assert xs == init + [xs[|xs| - 1]];
      var u := Unique(init);
      if xs[|xs| - 1] in u then u else u + [xs[|xs| - 1]]
  }

  // ---------------------------------------------------------------------
  // Numerator and denominator, record by record
  // ---------------------------------------------------------------------

  /** A time weight by year and a rank weight by rank. The sums below are
      stated and proved for any weighting; `compute_score` uses the one of
      `get_time_weights` and `get_rank_weights`. */
  datatype Weighting = Weighting(time: int -> real, rank: int -> real)

  /** Time weights are never negative, and the weight of every rank from
      2 on lies between 0 and 1. */
  ghost predicate Admissible(w: Weighting) {
    && (forall year :: w.time(year) >= 0.0)
    && (forall rank :: rank >= 2 ==> 0.0 <= w.rank(rank) <= 1.0)
  }

  /** The weights of `get_time_weights`, for the given current year, and of
      `get_rank_weights`; they meet the bounds the score lemmas need. */
  function ScoreWeights(currentYear: int): (w: Weighting)
    ensures Admissible(w)
  {
    var w := Weighting(year => TimeWeight(year, currentYear), RankWeight);
    assert forall year :: w.time(year) >= 0.0 by {
      forall year
        ensures w.time(year) >= 0.0
      {
        assert w.time(year) == TimeWeight(year, currentYear);
      }
    }
    w
  }

  /** The two sums a score is made of: the gain of the ranks up to `k`,
      and the exposure of every record. */
  datatype Measure = Gain(k: int) | Exposure

  /** What one record adds to a sum: its time weight, times its rank
      weight for the gain (and nothing when its rank is outside 2..k). */
  function Credit(x: Record, m: Measure, w: Weighting): real {
    match m
    case Gain(k) => if 2 <= x.rank <= k then w.time(x.year) * w.rank(x.rank) else 0.0
    case Exposure => w.time(x.year)
  }

  function Total(rows: seq<Record>, m: Measure, w: Weighting): real {
    if rows == [] then 0.0
    else Total(rows[..|rows| - 1], m, w) + Credit(rows[|rows| - 1], m, w)
  }

  lemma TotalSnoc(rows: seq<Record>, x: Record, m: Measure, w: Weighting)
    ensures Total(rows + [x], m, w) == Total(rows, m, w) + Credit(x, m, w)
  {
    assert (rows + [x])[..|rows|] == rows;
  }

  /** No record gains more than it is exposed, so the numerator never
      exceeds the denominator, and neither is negative. */
  lemma {:induction false} GainWithinExposure(rows: seq<Record>, k: int, w: Weighting)
    requires Admissible(w)
    ensures 0.0 <= Total(rows, Gain(k), w) <= Total(rows, Exposure, w)
  {
    if rows != [] {
      var init, x := rows[..|rows| - 1], rows[|rows| - 1];
      GainWithinExposure(init, k, w);
      var gain, exposure := Credit(x, Gain(k), w), Credit(x, Exposure, w);
      CreditWithin(x, k, w);
      assert Total(rows, Gain(k), w) == Total(init, Gain(k), w) + gain;
      assert Total(rows, Exposure, w) == Total(init, Exposure, w) + exposure;
    }
  }

  /** The same for one record. */
  lemma CreditWithin(x: Record, k: int, w: Weighting)
    requires Admissible(w)
    ensures 0.0 <= Credit(x, Gain(k), w) <= Credit(x, Exposure, w)
  {
    var tw, rw := w.time(x.year), w.rank(x.rank);
    assert tw >= 0.0;
    if 2 <= x.rank <= k {
      assert 0.0 <= rw <= 1.0;
      Scale(tw, rw);
      assert Credit(x, Gain(k), w) == tw * rw;
    } else {
      assert Credit(x, Gain(k), w) == 0.0;
    }
  }

  /** A weight in [0, 1] does not raise a non-negative weight. */
  lemma Scale(a: real, b: real)
    requires a >= 0.0 && 0.0 <= b <= 1.0
    ensures 0.0 <= a * b <= a
  {
    assert a * b <= a * 1.0;
  }

  /** With `k < 2` no rank is weighed, so there is nothing to gain. */
  lemma {:induction false} NoGainBelowSecond(rows: seq<Record>, k: int, w: Weighting)
    requires k < 2
    ensures Total(rows, Gain(k), w) == 0.0
  {
    if rows != [] {
      NoGainBelowSecond(rows[..|rows| - 1], k, w);
    }
  }

  // ---------------------------------------------------------------------
  // Numerator and denominator, year by year and rank by rank
  // ---------------------------------------------------------------------

  /** The rank weight of every row holding rank `r`, added up. */
  function Weighted(rows: seq<Record>, r: int, w: Weighting): real {
    if rows == [] then 0.0
    else Weighted(rows[..|rows| - 1], r, w) + (if rows[|rows| - 1].rank == r then w.rank(r) else 0.0)
  }

  /** `df[df['rank'] == r].shape[0]` and its like: the number of matching
      rows. */
  function Count(rows: seq<Record>, c: Column): nat {
    if rows == [] then 0
    else Count(rows[..|rows| - 1], c) + (if Matches(rows[|rows| - 1], c) then 1 else 0)
  }

  /** Adding a rank's weight once per row is multiplying it by the count. */
  lemma {:induction false} WeightedCount(rows: seq<Record>, r: int, w: Weighting)
    ensures Weighted(rows, r, w) == w.rank(r) * (Count(rows, Rank(r)) as real)
  {
    if rows != [] {
      WeightedCount(rows[..|rows| - 1], r, w);
      if rows[|rows| - 1].rank == r {
        MulSucc(w.rank(r), Count(rows, Rank(r)) as real, Count(rows[..|rows| - 1], Rank(r)) as real);
      }
    }
  }

  /** The rank loop up to rank `hi - 1`: the weight of each rank 2, 3, ...
      times the number of rows holding it. */
  function RankSum(rows: seq<Record>, hi: int, w: Weighting): real
    decreases hi
  {
    if hi <= 2 then 0.0 else RankSum(rows, hi - 1, w) + Weighted(rows, hi - 1, w)
  }

  /** The rank weight of every row whose rank is in 2..k, added up row by
      row. */
  function RankCredit(rows: seq<Record>, k: int, w: Weighting): real {
    if rows == [] then 0.0
    else
      var x := rows[|rows| - 1];
      RankCredit(rows[..|rows| - 1], k, w) + (if 2 <= x.rank <= k then w.rank(x.rank) else 0.0)
  }

  /** One more row adds its own rank weight to the rank loop, when its
      rank is one the loop visits. */
  lemma {:induction false} RankSumSnoc(rows: seq<Record>, x: Record, hi: int, w: Weighting)
    ensures RankSum(rows + [x], hi, w) == RankSum(rows, hi, w) + (if 2 <= x.rank < hi then w.rank(x.rank) else 0.0)
    decreases hi
  {
    if hi > 2 {
      RankSumSnoc(rows, x, hi - 1, w);
      assert (rows + [x])[..|rows|] == rows;
    }
  }

  /** Looping over the ranks and looping over the rows weigh the same
      rows. */
  lemma {:induction false} RankSumByRows(rows: seq<Record>, k: int, w: Weighting)
    ensures RankSum(rows, k + 1, w) == RankCredit(rows, k, w)
  {
    if rows == [] {
      RankSumEmpty(k + 1, w);
    } else {
      var init, x := rows[..|rows| - 1], rows[|rows| - 1];
      assert rows == init + [x];
      RankSumByRows(init, k, w);
      RankSumSnoc(init, x, k + 1, w);
      assert RankCredit(rows, k, w) == RankCredit(init, k, w) + (if 2 <= x.rank <= k then w.rank(x.rank) else 0.0);
    }
  }

  lemma {:induction false} RankSumEmpty(hi: int, w: Weighting)
    ensures RankSum([], hi, w) == 0.0
    decreases hi
  {
    if hi > 2 {
      RankSumEmpty(hi - 1, w);
    }
  }

  /** The rank loop of compute_score: for each rank 2 up to
      `hi - 1`, the year weight times the rank weight times the number of
      rows holding that rank. */
  function RankLoopSum(rows: seq<Record>, hi: int, yearWeight: real, w: Weighting): real
    decreases hi
  {
    if hi <= 2 then 0.0
    else RankLoopSum(rows, hi - 1, yearWeight, w) + yearWeight * w.rank(hi - 1) * (Count(rows, Rank(hi - 1)) as real)
  }

  /** One more rank in the loop. */
  lemma RankLoopNext(rows: seq<Record>, rank: int, yearWeight: real, w: Weighting)
    requires rank >= 2
    ensures RankLoopSum(rows, rank + 1, yearWeight, w)
         == RankLoopSum(rows, rank, yearWeight, w) + yearWeight * w.rank(rank) * (Count(rows, Rank(rank)) as real)
  {
  }

  /** The rank loop is the year weight times the weighted rank count. */
  lemma {:induction false} RankLoopScales(rows: seq<Record>, hi: int, yearWeight: real, w: Weighting)
    ensures RankLoopSum(rows, hi, yearWeight, w) == yearWeight * RankSum(rows, hi, w)
    decreases hi
  {
    if hi <= 2 {
      assert RankSum(rows, hi, w) == 0.0;
    } else {
      var r := hi - 1;
      RankLoopScales(rows, r, yearWeight, w);
      WeightedCount(rows, r, w);
      var n := Count(rows, Rank(r)) as real;
      MulAssoc(yearWeight, w.rank(r), n);
      assert RankSum(rows, hi, w) == RankSum(rows, r, w) + w.rank(r) * n;
      ScaledStep(yearWeight, RankSum(rows, hi, w), RankSum(rows, r, w), w.rank(r) * n,
                 RankLoopSum(rows, hi, yearWeight, w), RankLoopSum(rows, r, yearWeight, w));
    }
  }

  /** For rows of one year, the rank weights scaled by the year's weight
      are the gain. */
  lemma {:induction false} OneYearGain(rows: seq<Record>, year: int, tw: real, k: int, w: Weighting)
    requires forall i :: 0 <= i < |rows| ==> rows[i].year == year
    requires tw == w.time(year)
    ensures tw * RankCredit(rows, k, w) == Total(rows, Gain(k), w)
  {
    if rows == [] {
      assert RankCredit(rows, k, w) == 0.0 && Total(rows, Gain(k), w) == 0.0;
    } else {
      var init, x := rows[..|rows| - 1], rows[|rows| - 1];
      OneYearGain(init, year, tw, k, w);
      var d := if 2 <= x.rank <= k then w.rank(x.rank) else 0.0;
      assert x.year == year;
      if 2 <= x.rank <= k {
        assert Credit(x, Gain(k), w) == tw * d;
      } else {
        assert Credit(x, Gain(k), w) == 0.0 == tw * d;
      }
      assert RankCredit(rows, k, w) == RankCredit(init, k, w) + d;
      assert Total(rows, Gain(k), w) == Total(init, Gain(k), w) + Credit(x, Gain(k), w);
      ScaledStep(tw, RankCredit(rows, k, w), RankCredit(init, k, w), d, Total(rows, Gain(k), w), Total(init, Gain(k), w));
    }
  }

  /** For rows of one year, the row count scaled by the year's weight is
      the exposure. */
  lemma {:induction false} OneYearExposure(rows: seq<Record>, year: int, tw: real, w: Weighting)
    requires forall i :: 0 <= i < |rows| ==> rows[i].year == year
    requires tw == w.time(year)
    ensures tw * (|rows| as real) == Total(rows, Exposure, w)
  {
    if rows == [] {
      assert Total(rows, Exposure, w) == 0.0;
    } else {
      var init := rows[..|rows| - 1];
      OneYearExposure(init, year, tw, w);
      assert Total(rows, Exposure, w) == Total(init, Exposure, w) + tw * 1.0;
      ScaledStep(tw, |rows| as real, |init| as real, 1.0, Total(rows, Exposure, w), Total(init, Exposure, w));
    }
  }

  /** Equal values scaled alike stay equal. */
  lemma ScaleEqual(a: real, x: real, y: real)
    requires x == y
    ensures a * x == a * y
  {
  }

  /** Scaling a sum that grew by `d` makes the scaled sum grow by the
      scaled `d`. */
  lemma ScaledStep(a: real, s: real, s0: real, d: real, t: real, t0: real)
    requires s == s0 + d && t == t0 + a * d && a * s0 == t0
    ensures a * s == t
  {
    Distribute(a, s, s0, d);
  }

  lemma MulSucc(a: real, m: real, n: real)
    requires m == n + 1.0
    ensures a * m == a * n + a
  {
  }

  lemma Distribute(a: real, s: real, b: real, c: real)
    requires s == b + c
    ensures a * s == a * b + a * c
  {
  }

  lemma MulAssoc(a: real, b: real, c: real)
    ensures a * b * c == a * (b * c)
  {
  }

  /** One pass of the year loop computes that year's two shares: the rank
      loop over the year's rows gives its gain, and the weighted row count
      its exposure. */
  lemma OneYear(rows: seq<Record>, year: int, appearances: seq<Record>, yearWeight: real, k: int, w: Weighting)
    requires appearances == Select(rows, Year(year)) && yearWeight == w.time(year)
    ensures RankLoopSum(appearances, k + 1, yearWeight, w) == Total(appearances, Gain(k), w)
    ensures yearWeight * (|appearances| as real) == Total(appearances, Exposure, w)
  {
    SelectedYear(rows, year);
    OneYearGain(appearances, year, yearWeight, k, w);
    OneYearExposure(appearances, year, yearWeight, w);
    RankLoopScales(appearances, k + 1, yearWeight, w);
    RankSumByRows(appearances, k, w);
    ScaleEqual(yearWeight, RankSum(appearances, k + 1, w), RankCredit(appearances, k, w));
  }

  /** Every row selected for a year is of that year. */
  lemma SelectedYear(rows: seq<Record>, year: int)
    ensures forall j :: 0 <= j < |Select(rows, Year(year))| ==> Select(rows, Year(year))[j].year == year
  {
    var appearances := Select(rows, Year(year));
    SelectMembers(rows, Year(year));
    forall j | 0 <= j < |appearances|
      ensures appearances[j].year == year
    {
      assert appearances[j] in appearances;
    }
  }

  /** The year loop: each listed year's share of a sum. */
  function YearTotals(rows: seq<Record>, years: seq<int>, m: Measure, w: Weighting): real {
    if years == [] then 0.0
    else YearTotals(rows, years[..|years| - 1], m, w) + Total(Select(rows, Year(years[|years| - 1])), m, w)
  }

  /** One more row adds its credit once if its year is listed (the years
      being distinct), and nothing otherwise. */
  lemma {:induction false} YearTotalsSnoc(rows: seq<Record>, x: Record, years: seq<int>, m: Measure, w: Weighting)
    requires Distinct(years)
    ensures YearTotals(rows + [x], years, m, w)
         == YearTotals(rows, years, m, w) + (if x.year in years then Credit(x, m, w) else 0.0)
  {
    if years != [] {
      var init, y := years[..|years| - 1], years[|years| - 1];
      assert years == init + [y];
      assert Distinct(init);
      YearTotalsSnoc(rows, x, init, m, w);
      SelectSnoc(rows, x, Year(y));
      if x.year == y {
        assert x.year !in init;
        TotalSnoc(Select(rows, Year(y)), x, m, w);
      } else {
        assert Select(rows + [x], Year(y)) == Select(rows, Year(y));
      }
    }
  }

  /** Splitting by the distinct years of the table loses and repeats no
      row: the year loop adds up to the record-by-record sum. */
  lemma {:induction false} YearSplit(rows: seq<Record>, years: seq<int>, m: Measure, w: Weighting)
    requires Distinct(years)
    requires forall x :: x in rows ==> x.year in years
    ensures YearTotals(rows, years, m, w) == Total(rows, m, w)
  {
    if rows == [] {
      EmptyYearTotals(years, m, w);
    } else {
      var init, x := rows[..|rows| - 1], rows[|rows| - 1];
      assert rows == init + [x];
      assert forall y :: y in init ==> y in rows;
      YearSplit(init, years, m, w);
      YearTotalsSnoc(init, x, years, m, w);
    }
  }

  lemma {:induction false} EmptyYearTotals(years: seq<int>, m: Measure, w: Weighting)
    ensures YearTotals([], years, m, w) == 0.0
  {
    if years != [] {
      EmptyYearTotals(years[..|years| - 1], m, w);
    }
  }

  /** compute_score's year loop for one method's rows, with the rank loop
      inside it. */
  method Accumulate(rows: seq<Record>, years: seq<int>, k: int, w: Weighting)
      returns (numerator: real, denominator: real)
    ensures numerator == YearTotals(rows, years, Gain(k), w)
    ensures denominator == YearTotals(rows, years, Exposure, w)
  {
    numerator, denominator := 0.0, 0.0;
    for i := 0 to |years|
      invariant numerator == YearTotals(rows, years[..i], Gain(k), w)
      invariant denominator == YearTotals(rows, years[..i], Exposure, w)
    {
      YearTotalsNext(rows, years, i, Gain(k), w);
      YearTotalsNext(rows, years, i, Exposure, w);
      var yearWeight := w.time(years[i]);
      var appearances := Select(rows, Year(years[i]));
      numerator := RankLoop(numerator, appearances, yearWeight, k, w);
      denominator := denominator + yearWeight * (|appearances| as real);
      OneYear(rows, years[i], appearances, yearWeight, k, w);
    }
    assert years[..|years|] == years;
  }

  /** The year loop's step: the prefix one year longer adds that year's
      share. */
  lemma YearTotalsNext(rows: seq<Record>, years: seq<int>, i: int, m: Measure, w: Weighting)
    requires 0 <= i < |years|
    ensures YearTotals(rows, years[..i + 1], m, w)
         == YearTotals(rows, years[..i], m, w) + Total(Select(rows, Year(years[i])), m, w)
  {
    assert years[..i + 1][..i] == years[..i];
  }

  /** compute_score's rank loop for one year's rows, adding to the
      numerator. */
  method RankLoop(numerator: real, appearances: seq<Record>, yearWeight: real, k: int, w: Weighting)
      returns (result: real)
    ensures result == numerator + RankLoopSum(appearances, k + 1, yearWeight, w)
  {
    result := numerator;
    var rank := 2;
    while rank < k + 1
      invariant 2 <= rank && (rank <= k + 1 || rank == 2)
      invariant result == numerator + RankLoopSum(appearances, rank, yearWeight, w)
    {
      var rankWeight := w.rank(rank);
      RankLoopNext(appearances, rank, yearWeight, w);
      result := result + yearWeight * rankWeight * (Count(appearances, Rank(rank)) as real);
      rank := rank + 1;
    }
    assert RankLoopSum(appearances, rank, yearWeight, w) == RankLoopSum(appearances, k + 1, yearWeight, w);
  }

  // ---------------------------------------------------------------------
  // Scores
  // ---------------------------------------------------------------------

  datatype Score = Score(name: string, score: real)

  /** A method is scored when it has at least `minCount` rows and they do
      not all come from one paper: with `minCount >= 1`, its rows come
      from at least two distinct papers. */
  predicate Included(rows: seq<Record>, name: string, minCount: int)
    ensures Included(rows, name, minCount) && minCount >= 1
            ==> |Unique(Papers(Select(rows, Method(name))))| >= 2
  {
    var own := Select(rows, Method(name));
    assert own != [] ==> Papers(own)[0] in Unique(Papers(own));
    |own| >= minCount && |Unique(Papers(own))| != 1
  }

  /** The scores of the listed methods, in list order, at most one each,
      or the division by zero that stops the computation. */
  function ScoresOf(rows: seq<Record>, names: seq<string>, k: int, minCount: int, eps: real, currentYear: int)
    : (r: Outcome<seq<Score>>)
    ensures r.Raised? ==> r.error == ZeroDivisionError
    ensures r.Ok? ==> |r.value| <= |names|
  {
    if names == [] then Ok([])
    else
      var name := names[|names| - 1];
      match ScoresOf(rows, names[..|names| - 1], k, minCount, eps, currentYear)
      case Raised(e) => Raised(e)
      case Ok(scores) =>
        if !Included(rows, name, minCount) then Ok(scores)
        else
          var own := Select(rows, Method(name));
          var denominator := Total(own, Exposure, ScoreWeights(currentYear));
          if denominator + eps == 0.0 then Raised(ZeroDivisionError)
          else Ok(scores + [Score(name, Total(own, Gain(k), ScoreWeights(currentYear)) / (denominator + eps))])
  }

  /** The unordered content of `compute_score`'s table. Only a division
      by zero can stop it, and that needs `eps <= 0`. */
  function Scores(rows: seq<Record>, k: int, minCount: int, eps: real, currentYear: int): (r: Outcome<seq<Score>>)
    ensures r.Raised? ==> r.error == ZeroDivisionError && eps <= 0.0
  {
    assert eps > 0.0 ==> ScoresOf(rows, Unique(Names(rows)), k, minCount, eps, currentYear).Ok? by {
      if eps > 0.0 {
        ScoresBounded(rows, Unique(Names(rows)), k, minCount, eps, currentYear);
      }
    }
    ScoresOf(rows, Unique(Names(rows)), k, minCount, eps, currentYear)
  }

  predicate SortedByScore(s: seq<Score>) {
    forall i, j :: 0 <= i < j < |s| ==> s[i].score >= s[j].score
  }

  function InsertByScore(x: Score, s: seq<Score>): (r: seq<Score>)
    ensures multiset(r) == multiset(s) + multiset{x}
    ensures |r| == |s| + 1 && (r[0] == x || (s != [] && r[0] == s[0]))
  {
    if s == [] || x.score >= s[0].score then [x] + s
    else
      assert s == [s[0]] + s[1..];
      [s[0]] + InsertByScore(x, s[1..])
  }

  lemma {:induction false} InsertByScoreSorted(x: Score, s: seq<Score>)
    requires SortedByScore(s)
    ensures SortedByScore(InsertByScore(x, s))
  {
    if s != [] && x.score < s[0].score {
      var t := InsertByScore(x, s[1..]);
      InsertByScoreSorted(x, s[1..]);
      assert s[0].score >= t[0].score by {
        if t[0] != x {
          assert t[0] == s[1];
        }
      }
      var r := [s[0]] + t;
      forall i, j | 0 <= i < j < |r|
        ensures r[i].score >= r[j].score
      {
        if i == 0 && j > 1 {
          assert t[0].score >= t[j - 1].score;
        }
      }
    }
  }

  /** `sort_values(by='score', ascending=False)`: best score first. */
  function SortByScore(s: seq<Score>): (r: seq<Score>)
    ensures SortedByScore(r)
    ensures multiset(r) == multiset(s)
  {
    if s == [] then []
    else
      assert s == [s[0]] + s[1..];
      InsertByScoreSorted(s[0], SortByScore(s[1..]));
      InsertByScore(s[0], SortByScore(s[1..]))
  }

  /** `compute_score`: the score of every method that has enough rows from
      more than one paper, best first. Ties come in no promised order. */
  method ComputeScore(rankings: seq<Record>, k: int, minCount: int, eps: real, currentYear: int)
      returns (r: Outcome<seq<Score>>)
    ensures var spec := Scores(rankings, k, minCount, eps, currentYear);
      && r.Ok? == spec.Ok?
      && (r.Raised? ==> r.error == spec.error)
      && (r.Ok? ==> SortedByScore(r.value) && multiset(r.value) == multiset(spec.value))
  {
    var methods := Unique(Names(rankings));
    var years := Unique(Years(rankings));
    var scores: seq<Score> := [];
    for i := 0 to |methods|
      invariant ScoresOf(rankings, methods[..i], k, minCount, eps, currentYear) == Ok(scores)
    {
      var methodRows := Select(rankings, Method(methods[i]));
      if |methodRows| < minCount {
        ScoresSkip(rankings, methods, i, scores, k, minCount, eps, currentYear);
        continue;
      }
      if |Unique(Papers(methodRows))| == 1 {
        ScoresSkip(rankings, methods, i, scores, k, minCount, eps, currentYear);
        continue;
      }
      var w := ScoreWeights(currentYear);
      var numerator, denominator := Accumulate(methodRows, years, k, w);
      YearsListed(rankings, methods[i]);
      YearSplit(methodRows, years, Gain(k), w);
      YearSplit(methodRows, years, Exposure, w);
      if denominator + eps == 0.0 {
        ScoresRaise(rankings, methods, i, k, minCount, eps, currentYear);
        return Raised(ZeroDivisionError);
      }
      ScoresAppend(rankings, methods, i, scores, k, minCount, eps, currentYear, numerator, denominator);
      scores := scores + [Score(methods[i], numerator / (denominator + eps))];
    }
    assert methods[..|methods|] == methods;
    r := Ok(SortByScore(scores));
  }

  /** The year of every row of a method is among the table's years. */
  lemma YearsListed(rows: seq<Record>, name: string)
    ensures forall x :: x in Select(rows, Method(name)) ==> x.year in Unique(Years(rows))
  {
    SelectMembers(rows, Method(name));
    forall x | x in Select(rows, Method(name))
      ensures x.year in Unique(Years(rows))
    {
      var j :| 0 <= j < |rows| && rows[j] == x;
      assert Years(rows)[j] == x.year;
    }
  }

  /** The method loop's step for a method that is not scored. */
  lemma ScoresSkip(rows: seq<Record>, names: seq<string>, i: int, scores: seq<Score>,
                   k: int, minCount: int, eps: real, currentYear: int)
    requires 0 <= i < |names| && !Included(rows, names[i], minCount)
    requires ScoresOf(rows, names[..i], k, minCount, eps, currentYear) == Ok(scores)
    ensures ScoresOf(rows, names[..i + 1], k, minCount, eps, currentYear) == Ok(scores)
  {
    assert names[..i + 1][..i] == names[..i];
  }

  /** The method loop's step for a scored method: its score is the gain
      over the exposure (plus `eps`). */
  lemma ScoresAppend(rows: seq<Record>, names: seq<string>, i: int, scores: seq<Score>,
                     k: int, minCount: int, eps: real, currentYear: int, numerator: real, denominator: real)
    requires 0 <= i < |names| && Included(rows, names[i], minCount)
    requires ScoresOf(rows, names[..i], k, minCount, eps, currentYear) == Ok(scores)
    requires numerator == Total(Select(rows, Method(names[i])), Gain(k), ScoreWeights(currentYear))
    requires denominator == Total(Select(rows, Method(names[i])), Exposure, ScoreWeights(currentYear))
    requires denominator + eps != 0.0
    ensures ScoresOf(rows, names[..i + 1], k, minCount, eps, currentYear)
         == Ok(scores + [Score(names[i], numerator / (denominator + eps))])
  {
    assert names[..i + 1][..i] == names[..i];
  }

  /** Once a division by zero stops the computation, no later method
      changes that. */
  lemma {:induction false} ScoresRaise(rows: seq<Record>, names: seq<string>, i: nat, k: int, minCount: int, eps: real,
                                       currentYear: int)
    requires i < |names| && ScoresOf(rows, names[..i], k, minCount, eps, currentYear).Ok?
    requires Included(rows, names[i], minCount)
    requires Total(Select(rows, Method(names[i])), Exposure, ScoreWeights(currentYear)) + eps == 0.0
    ensures ScoresOf(rows, names, k, minCount, eps, currentYear) == Raised(ZeroDivisionError)
    decreases |names|
  {
    if i < |names| - 1 {
      var init := names[..|names| - 1];
      assert init[..i] == names[..i];
      ScoresRaise(rows, init, i, k, minCount, eps, currentYear);
    } else {
      assert names[..|names| - 1] == names[..i];
    }
  }

  // ---------------------------------------------------------------------
  // What the scores promise
  // ---------------------------------------------------------------------

  /** The index of the score table. It is a projection of `Score`s, not
      of `Record`s, so it cannot share `Names`, which reads the rankings
      table's `method` column. */
  function ScoreNames(s: seq<Score>): (r: seq<string>)
    ensures |r| == |s| && forall i :: 0 <= i < |s| ==> r[i] == s[i].name
  {
    seq(|s|, i requires 0 <= i < |s| => s[i].name)
  }

  /** The listed methods that are scored, in list order. */
  function Picked(rows: seq<Record>, names: seq<string>, minCount: int): seq<string> {
    if names == [] then []
    else
      var name := names[|names| - 1];
      Picked(rows, names[..|names| - 1], minCount) + (if Included(rows, name, minCount) then [name] else [])
  }

  /** A method is picked exactly when it is listed and included. */
  lemma {:induction false} PickedMembers(rows: seq<Record>, names: seq<string>, minCount: int)
    ensures forall name :: name in Picked(rows, names, minCount) <==> name in names && Included(rows, name, minCount)
  {
    if names != [] {
      var init := names[..|names| - 1];
      PickedMembers(rows, init, minCount);
      assert names == init + [names[|names| - 1]];
    }
  }

  /** Picking from a list without repeats gives a list without repeats. */
  lemma {:induction false} PickedDistinct(rows: seq<Record>, names: seq<string>, minCount: int)
    requires Distinct(names)
    ensures Distinct(Picked(rows, names, minCount))
  {
    if names != [] {
      var init, name := names[..|names| - 1], names[|names| - 1];
      PickedDistinct(rows, init, minCount);
      PickedMembers(rows, init, minCount);
    }
  }

  /** When no division by zero stops it, the method loop scores the picked
      methods, one entry each, in list order. */
  lemma {:induction false} ScoresOfNames(rows: seq<Record>, names: seq<string>, k: int, minCount: int, eps: real,
                                         currentYear: int)
    requires ScoresOf(rows, names, k, minCount, eps, currentYear).Ok?
    ensures ScoreNames(ScoresOf(rows, names, k, minCount, eps, currentYear).value) == Picked(rows, names, minCount)
  {
    if names != [] {
      var init := names[..|names| - 1];
      ScoresOfNames(rows, init, k, minCount, eps, currentYear);
      var before := ScoresOf(rows, init, k, minCount, eps, currentYear).value;
      var after := ScoresOf(rows, names, k, minCount, eps, currentYear).value;
      if Included(rows, names[|names| - 1], minCount) {
        assert ScoreNames(after) == ScoreNames(before) + [names[|names| - 1]];
      } else {
        assert after == before;
      }
    }
  }

  /** The methods in `compute_score`'s table are exactly the methods of
      the rankings that have at least `minCount` rows from more than one
      paper, each once. */
  lemma ScoredMethods(rows: seq<Record>, k: int, minCount: int, eps: real, currentYear: int)
    requires Scores(rows, k, minCount, eps, currentYear).Ok?
    ensures var names := ScoreNames(Scores(rows, k, minCount, eps, currentYear).value);
      && Distinct(names)
      && forall name :: name in names <==> name in Names(rows) && Included(rows, name, minCount)
  {
    var methods := Unique(Names(rows));
    ScoresOfNames(rows, methods, k, minCount, eps, currentYear);
    PickedMembers(rows, methods, minCount);
    PickedDistinct(rows, methods, minCount);
  }

  /** A gain no larger than its exposure, over the exposure plus a
      positive `eps`, lies in [0, 1). */
  lemma RatioBelowOne(gain: real, exposure: real, eps: real)
    requires 0.0 <= gain <= exposure && eps > 0.0
    ensures 0.0 <= gain / (exposure + eps) < 1.0
  {
    var q := gain / (exposure + eps);
    assert q * (exposure + eps) == gain;
  }

  /** With a positive `eps` the division never fails, and every score lies
      in [0, 1). */
  lemma {:induction false} ScoresBounded(rows: seq<Record>, names: seq<string>, k: int, minCount: int, eps: real,
                                         currentYear: int)
    requires eps > 0.0
    ensures ScoresOf(rows, names, k, minCount, eps, currentYear).Ok?
    ensures var s := ScoresOf(rows, names, k, minCount, eps, currentYear).value;
      forall i :: 0 <= i < |s| ==> 0.0 <= s[i].score < 1.0
  {
    if names != [] {
      var init, name := names[..|names| - 1], names[|names| - 1];
      ScoresBounded(rows, init, k, minCount, eps, currentYear);
      if Included(rows, name, minCount) {
        var own, w := Select(rows, Method(name)), ScoreWeights(currentYear);
        GainWithinExposure(own, k, w);
        RatioBelowOne(Total(own, Gain(k), w), Total(own, Exposure, w), eps);
      }
    }
  }

  /** With `k < 2` the rank loop is empty and every score is 0. */
  lemma {:induction false} ScoresZeroBelowSecond(rows: seq<Record>, names: seq<string>, k: int, minCount: int, eps: real,
                                                 currentYear: int)
    requires k < 2 && ScoresOf(rows, names, k, minCount, eps, currentYear).Ok?
    ensures var s := ScoresOf(rows, names, k, minCount, eps, currentYear).value;
      forall i :: 0 <= i < |s| ==> s[i].score == 0.0
  {
    if names != [] {
      var init, name := names[..|names| - 1], names[|names| - 1];
      ScoresZeroBelowSecond(rows, init, k, minCount, eps, currentYear);
      if Included(rows, name, minCount) {
        NoGainBelowSecond(Select(rows, Method(name)), k, ScoreWeights(currentYear));
      }
    }
  }

  /** A worked case: method X ranked second in two 2023 papers and fifth
      in a 2020 paper. With k = 2 only the second places gain (1 each);
      the exposure is 1 + 1 + 0.7 for the three years' weights in 2023. */
  lemma WorkedExample(rows: seq<Record>, eps: real)
    requires rows == [Record("P1", 2023, "X", 2), Record("P2", 2023, "X", 2), Record("P2", 2020, "X", 5)]
    requires eps >= 0.0
    ensures Scores(rows, 2, 3, eps, 2023) == Ok([Score("X", 2.0 / (2.7 + eps))])
  {
    ExampleTable(rows);
    ExampleSums(rows);
    var methods := Unique(Names(rows));
    assert Included(rows, "X", 3);
    assert ScoresOf(rows, methods[..0], 2, 3, eps, 2023) == Ok([]);
    ScoresAppend(rows, methods, 0, [], 2, 3, eps, 2023, 2.0, 2.7);
    assert methods[..1] == methods && methods[0] == "X";
    assert [] + [Score("X", 2.0 / (2.7 + eps))] == [Score("X", 2.0 / (2.7 + eps))];
    assert Scores(rows, 2, 3, eps, 2023) == ScoresOf(rows, methods, 2, 3, eps, 2023);
  }

  /** The example's table: one method, all rows its own, two papers. */
  lemma ExampleTable(rows: seq<Record>)
    requires rows == [Record("P1", 2023, "X", 2), Record("P2", 2023, "X", 2), Record("P2", 2020, "X", 5)]
    ensures Unique(Names(rows)) == ["X"]
    ensures Select(rows, Method("X")) == rows
    ensures Unique(Papers(rows)) == ["P1", "P2"]
  {
    var names := Names(rows);
    assert names == ["X", "X", "X"];
    assert names[..2][..1][..0] == [];
    assert Unique(names[..2][..1]) == ["X"];
    assert Unique(names[..2]) == ["X"];
    SelectAll(rows, Method("X"));
    var papers := Papers(rows);
    assert papers == ["P1", "P2", "P2"];
    assert papers[..2][..1][..0] == [];
    assert Unique(papers[..2][..1]) == ["P1"];
    assert Unique(papers[..2]) == ["P1", "P2"];
  }

  /** The example's gain and exposure in 2023. */
  lemma ExampleSums(rows: seq<Record>)
    requires rows == [Record("P1", 2023, "X", 2), Record("P2", 2023, "X", 2), Record("P2", 2020, "X", 5)]
    ensures Total(rows, Gain(2), ScoreWeights(2023)) == 2.0
    ensures Total(rows, Exposure, ScoreWeights(2023)) == 2.7
  {
    var w := ScoreWeights(2023);
    var one, two := rows[..1], rows[..2];
    assert two[..1] == one && rows[..2] == two && one[..0] == [];
    assert Total(one, Gain(2), w) == 1.0;
    assert Total(two, Gain(2), w) == 2.0;
    assert Credit(rows[2], Gain(2), w) == 0.0;
    assert Total(one, Exposure, w) == 1.0;
    assert Total(two, Exposure, w) == 2.0;
    assert Credit(rows[2], Exposure, w) == TimeWeight(2020, 2023) == 0.7;
  }

  /** A filter every row matches keeps the whole table. */
  lemma {:induction false} SelectAll(rows: seq<Record>, c: Column)
    requires forall i :: 0 <= i < |rows| ==> Matches(rows[i], c)
    ensures Select(rows, c) == rows
  {
    if rows != [] {
      SelectAll(rows[..|rows| - 1], c);
    }
  }
}
