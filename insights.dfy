/** The insight engine of the fitness dashboard: a small rule engine over a
    time-ordered table of numeric rows. It compares the two halves of the
    period column by column (trend rule), looks for recent values far from the
    period's mean (anomaly rule), and falls back to a "consistent" message
    when neither fires. Messages are represented by the constructors of
    Insight; a column is identified by its position in a row. */
module Insights {
  import opened Stats

  type Row = seq<real>
  type Table = seq<Row>

  datatype Insight =
    | NoData                            // the table has no rows
    | NotEnough                         // too few rows to detect trends
    | Trend(col: nat, increased: bool)  // the column's mean shifted between the halves
    | Unusual(col: nat)                 // a recent value lies far from the mean
    | Consistent                        // no other insight was produced

  /** Smallest number of rows each half must have before any rule runs. */
  const MinHalf: nat := 5
  /** Number of trailing rows that the anomaly rule scans. */
  const RecentRows: nat := 7
  /** Relative change of the mean that counts as a trend. */
  const TrendRatio: real := 0.1
  /** Offset added to the first-half mean in the trend threshold. */
  const Epsilon: real := 0.000001

  function Min(a: nat, b: nat): nat
  {
    if a < b then a else b
  }

  predicate HasColumn(t: Table, c: nat)
  {
    forall i :: 0 <= i < |t| ==> c < |t[i]|
  }

  predicate HasColumns(t: Table, cols: seq<nat>)
  {
    forall c :: c in cols ==> HasColumn(t, c)
  }

  /** The values of column c, top to bottom. */
  function Column(t: Table, c: nat): (s: seq<real>)
    requires HasColumn(t, c)
    ensures |s| == |t| && forall i :: 0 <= i < |t| ==> s[i] == t[i][c]
  {
    seq(|t|, i requires 0 <= i < |t| => t[i][c])
  }

  /** Both rules run only when each half has at least MinHalf rows. */
  predicate Analysed(t: Table)
  {
    |t| / 2 >= MinHalf
  }

  function FirstHalf(t: Table): Table
  {
    t[..|t| / 2]
  }

  function SecondHalf(t: Table): Table
  {
    t[|t| / 2..]
  }

  /** The last RecentRows rows, or the whole table when it is shorter. */
  function Recent(t: Table): Table
  {
    t[|t| - Min(RecentRows, |t|)..]
  }

  lemma Halves(t: Table)
    ensures FirstHalf(t) + SecondHalf(t) == t
    ensures |FirstHalf(t)| == |t| / 2
    ensures |SecondHalf(t)| == |FirstHalf(t)| || |SecondHalf(t)| == |FirstHalf(t)| + 1
  {
  }

  lemma RecentIsSuffix(t: Table)
    ensures |Recent(t)| == Min(RecentRows, |t|)
    ensures forall i :: 0 <= i < |Recent(t)| ==> Recent(t)[i] == t[|t| - |Recent(t)| + i]
    ensures Analysed(t) ==> |Recent(t)| == RecentRows
  {
  }

  // ---------------------------------------------------------------------
  // Trend rule

  /** The trend test exactly as the dashboard writes it: the baseline is the
      first-half mean itself, with no absolute value taken. */
  predicate ExceedsThreshold(meanFirst: real, meanSecond: real)
  {
    Abs(meanSecond - meanFirst) > TrendRatio * (meanFirst + Epsilon)
  }

  function MeanFirst(t: Table, c: nat): real
    requires |t| >= 2 && HasColumn(t, c)
  {
    Mean(Column(FirstHalf(t), c))
  }

  function MeanSecond(t: Table, c: nat): real
    requires |t| >= 2 && HasColumn(t, c)
  {
    Mean(Column(SecondHalf(t), c))
  }

  predicate Shifted(t: Table, c: nat)
    requires |t| >= 2 && HasColumn(t, c)
  {
    ExceedsThreshold(MeanFirst(t, c), MeanSecond(t, c))
  }

  predicate Rising(t: Table, c: nat)
    requires |t| >= 2 && HasColumn(t, c)
  {
    MeanSecond(t, c) - MeanFirst(t, c) > 0.0
  }

  function TrendOf(t: Table, c: nat): seq<Insight>
    requires |t| >= 2 && HasColumn(t, c)
  {
    if Shifted(t, c) then [Trend(c, Rising(t, c))] else []
  }

  /** The trend insights for cols, in column order. */
  function Trends(t: Table, cols: seq<nat>): (r: seq<Insight>)
    requires |t| >= 2 && HasColumns(t, cols)
    ensures |r| <= |cols|
    ensures forall i :: 0 <= i < |r| ==> r[i].Trend?
  {
    if cols == [] then []
    else Trends(t, cols[..|cols| - 1]) + TrendOf(t, cols[|cols| - 1])
  }

  // ---------------------------------------------------------------------
  // Anomaly rule

  /** Some value of column c among the recent rows is an outlier with respect
      to the mean and sample variance of the WHOLE column. */
  predicate AnomalyFires(t: Table, c: nat)
    requires |t| >= 2 && HasColumn(t, c)
  {
    var recent := Column(Recent(t), c);
    exists k :: 0 <= k < |recent| && Outlier(recent[k], Column(t, c))
  }

  function AnomalyOf(t: Table, c: nat): seq<Insight>
    requires |t| >= 2 && HasColumn(t, c)
  {
    if AnomalyFires(t, c) then [Unusual(c)] else []
  }

  /** The anomaly insights for cols, in column order. */
  function Anomalies(t: Table, cols: seq<nat>): (r: seq<Insight>)
    requires |t| >= 2 && HasColumns(t, cols)
    ensures |r| <= |cols|
    ensures forall i :: 0 <= i < |r| ==> r[i].Unusual?
  {
    if cols == [] then []
    else Anomalies(t, cols[..|cols| - 1]) + AnomalyOf(t, cols[|cols| - 1])
  }

  // ---------------------------------------------------------------------
  // The engine

  /** What the engine answers for table t and numeric columns cols. */
  function ExpectedInsights(t: Table, cols: seq<nat>): seq<Insight>
    requires HasColumns(t, cols)
  {
    if |t| == 0 then [NoData]
    else if !Analysed(t) then [NotEnough]
    else
      var found := Trends(t, cols) + Anomalies(t, cols);
      if found == [] then [Consistent] else found
  }

  /** The dashboard's insight generator: the two guard clauses, a trend pass
      and an anomaly pass that append to one list, and the fallback. */
  method GenerateDynamicInsights(t: Table, cols: seq<nat>) returns (insights: seq<Insight>)
    requires HasColumns(t, cols)
    ensures insights == ExpectedInsights(t, cols)
  {
    if |t| == 0 {
      return [NoData];
    }
    var half := |t| / 2;
    if half < MinHalf {
      return [NotEnough];
    }
    insights := DetectTrends(t, cols);
    insights := DetectAnomalies(t, cols, insights);
    if insights == [] {
      insights := [Consistent];
    }
  }

  /** The trend pass: for each column in turn, compare the means of the two
      halves and append a trend insight when the change exceeds the threshold. */
  method DetectTrends(t: Table, cols: seq<nat>) returns (insights: seq<Insight>)
    requires |t| >= 2 && HasColumns(t, cols)
    ensures insights == Trends(t, cols)
  {
    insights := [];
    var half := |t| / 2;
    var firstHalf, secondHalf := t[..half], t[half..];
    assert firstHalf == FirstHalf(t) && secondHalf == SecondHalf(t);
    for i := 0 to |cols|
      invariant insights == Trends(t, cols[..i])
    {
      var col := cols[i];
      SlicesHaveColumn(t, col);
      var meanFirst, meanSecond := Mean(Column(firstHalf, col)), Mean(Column(secondHalf, col));
      var change := meanSecond - meanFirst;
      ghost var before := insights;
      if Abs(change) > TrendRatio * (meanFirst + Epsilon) {
        insights := insights + [Trend(col, change > 0.0)];
      }
      assert insights == before + TrendOf(t, col) by {
        assert meanFirst == MeanFirst(t, col) && meanSecond == MeanSecond(t, col);
      }
      PrefixStep(t, cols, i);
    }
    assert cols[..|cols|] == cols;
  }

  /** The anomaly pass: for each column in turn, scan the recent values
      against the whole column's mean and standard deviation, and append at
      most one anomaly insight. */
  method DetectAnomalies(t: Table, cols: seq<nat>, start: seq<Insight>) returns (insights: seq<Insight>)
    requires |t| >= 2 && HasColumns(t, cols)
    ensures insights == start + Anomalies(t, cols)
  {
    insights := start;
    var recent := t[|t| - Min(RecentRows, |t|)..];
    assert recent == Recent(t);
    for i := 0 to |cols|
      invariant insights == start + Anomalies(t, cols[..i])
    {
      var col := cols[i];
      SlicesHaveColumn(t, col);
      var whole := Column(t, col);
      var values := Column(recent, col);
      var found := ScanRecent(values, whole);
      assert found == AnomalyFires(t, col);
      ghost var before := insights;
      if found {
        insights := insights + [Unusual(col)];
      }
      assert insights == before + AnomalyOf(t, col);
      PrefixStep(t, cols, i);
      AppendAssoc(start, Anomalies(t, cols[..i]), AnomalyOf(t, col));
    }
    assert cols[..|cols|] == cols;
  }

  /** The inner scan of the anomaly pass: the column's mean and sample
      variance are computed once, and the scan stops at the first recent value
      that lies more than two standard deviations away. */
  method ScanRecent(values: seq<real>, whole: seq<real>) returns (found: bool)
    requires |whole| > 1
    ensures found <==> exists k :: 0 <= k < |values| && Outlier(values[k], whole)
  {
    var mean, variance := Mean(whole), Variance(whole);
    found := false;
    var j := 0;
    while j < |values|
      invariant 0 <= j <= |values|
      invariant forall k :: 0 <= k < j ==> !Outlier(values[k], whole)
    {
      if Sq(values[j] - mean) > 4.0 * variance {
        found := true;
        break;
      }
      j := j + 1;
    }
  }

  lemma SlicesHaveColumn(t: Table, c: nat)
    requires HasColumn(t, c)
    ensures HasColumn(FirstHalf(t), c) && HasColumn(SecondHalf(t), c) && HasColumn(Recent(t), c)
  {
  }

  lemma AppendAssoc<T>(a: seq<T>, b: seq<T>, c: seq<T>)
    ensures (a + b) + c == a + (b + c)
  {
  }

  lemma PrefixHasColumns(t: Table, cols: seq<nat>, n: nat)
    requires HasColumns(t, cols) && n <= |cols|
    ensures HasColumns(t, cols[..n])
  {
  }

  /** One more column extends both passes by that column's insight. */
  lemma PrefixStep(t: Table, cols: seq<nat>, i: nat)
    requires |t| >= 2 && HasColumns(t, cols) && i < |cols|
    ensures HasColumns(t, cols[..i]) && HasColumns(t, cols[..i + 1])
    ensures Trends(t, cols[..i + 1]) == Trends(t, cols[..i]) + TrendOf(t, cols[i])
    ensures Anomalies(t, cols[..i + 1]) == Anomalies(t, cols[..i]) + AnomalyOf(t, cols[i])
  {
    PrefixHasColumns(t, cols, i);
    PrefixHasColumns(t, cols, i + 1);
    var next := cols[..i + 1];
    assert next[..|next| - 1] == cols[..i] && next[|next| - 1] == cols[i];
  }

  // ---------------------------------------------------------------------
  // Columns named by a list of insights

  datatype Kind = TrendKind | UnusualKind

  predicate OfKind(x: Insight, k: Kind)
  {
    match k
    case TrendKind => x.Trend?
    case UnusualKind => x.Unusual?
  }

  /** The columns of the insights of kind k in r, in order. */
  function ColumnsOf(r: seq<Insight>, k: Kind): seq<nat>
  {
    if r == [] then []
    else
      var last := r[|r| - 1];
      ColumnsOf(r[..|r| - 1], k) + (if OfKind(last, k) then [last.col] else [])
  }

  lemma {:induction false} ColumnsOfAppend(a: seq<Insight>, b: seq<Insight>, k: Kind)
    ensures ColumnsOf(a + b, k) == ColumnsOf(a, k) + ColumnsOf(b, k)
  {
    if b != [] {
      assert (a + b)[..|a + b| - 1] == a + b[..|b| - 1];
      ColumnsOfAppend(a, b[..|b| - 1], k);
    } else {
      assert a + b == a;
    }
  }

  lemma {:induction false} ColumnsOfNone(r: seq<Insight>, k: Kind)
    requires forall i :: 0 <= i < |r| ==> !OfKind(r[i], k)
    ensures ColumnsOf(r, k) == []
  {
    if r != [] {
      ColumnsOfNone(r[..|r| - 1], k);
    }
  }

  predicate Distinct(s: seq<nat>)
  {
    forall i, j :: 0 <= i < j < |s| ==> s[i] != s[j]
  }

  /** a can be obtained from b by deleting elements. */
  predicate IsSubsequence(a: seq<nat>, b: seq<nat>)
    decreases |b|
  {
    if b == [] then a == []
    else
      IsSubsequence(a, b[..|b| - 1]) ||
      (a != [] && a[|a| - 1] == b[|b| - 1] && IsSubsequence(a[..|a| - 1], b[..|b| - 1]))
  }

  lemma {:induction false} SubsequenceElements(a: seq<nat>, b: seq<nat>)
    requires IsSubsequence(a, b)
    ensures forall x :: x in a ==> x in b
    decreases |b|
  {
    if b != [] {
      if IsSubsequence(a, b[..|b| - 1]) {
        SubsequenceElements(a, b[..|b| - 1]);
      } else {
        SubsequenceElements(a[..|a| - 1], b[..|b| - 1]);
        assert a == a[..|a| - 1] + [a[|a| - 1]];
      }
    }
  }

  lemma {:induction false} SubsequenceOfDistinct(a: seq<nat>, b: seq<nat>)
    requires IsSubsequence(a, b) && Distinct(b)
    ensures Distinct(a)
    decreases |b|
  {
    if b != [] {
      var init := b[..|b| - 1];
      assert Distinct(init);
      if IsSubsequence(a, init) {
        SubsequenceOfDistinct(a, init);
      } else {
        var front := a[..|a| - 1];
        SubsequenceOfDistinct(front, init);
        SubsequenceElements(front, init);
        assert b[|b| - 1] !in init;
        forall i, j | 0 <= i < j < |a|
          ensures a[i] != a[j]
        {
          if j < |a| - 1 {
            assert a[i] == front[i] && a[j] == front[j];
          } else {
            assert a[i] == front[i] && front[i] in front;
          }
        }
      }
    }
  }

  // ---------------------------------------------------------------------
  // Properties of the trend and anomaly passes

  lemma {:induction false} TrendsMembership(t: Table, cols: seq<nat>, c: nat, up: bool)
    requires |t| >= 2 && HasColumns(t, cols)
    ensures Trend(c, up) in Trends(t, cols) <==> c in cols && Shifted(t, c) && up == Rising(t, c)
  {
    if cols != [] {
      var init, last := cols[..|cols| - 1], cols[|cols| - 1];
      TrendsMembership(t, init, c, up);
      assert cols == init + [last];
    }
  }

  lemma {:induction false} AnomaliesMembership(t: Table, cols: seq<nat>, c: nat)
    requires |t| >= 2 && HasColumns(t, cols)
    ensures Unusual(c) in Anomalies(t, cols) <==> c in cols && AnomalyFires(t, c)
  {
    if cols != [] {
      var init, last := cols[..|cols| - 1], cols[|cols| - 1];
      AnomaliesMembership(t, init, c);
      assert cols == init + [last];
    }
  }

  lemma {:induction false} TrendsInColumnOrder(t: Table, cols: seq<nat>)
    requires |t| >= 2 && HasColumns(t, cols)
    ensures IsSubsequence(ColumnsOf(Trends(t, cols), TrendKind), cols)
  {
    if cols != [] {
      var init, last := cols[..|cols| - 1], cols[|cols| - 1];
      TrendsInColumnOrder(t, init);
      ColumnsOfAppend(Trends(t, init), TrendOf(t, last), TrendKind);
      var before := ColumnsOf(Trends(t, init), TrendKind);
      if Shifted(t, last) {
        assert ColumnsOf(TrendOf(t, last), TrendKind) == [last];
        assert (before + [last])[..|before|] == before;
      } else {
        assert ColumnsOf(TrendOf(t, last), TrendKind) == [];
        assert before + [] == before;
      }
    }
  }

  lemma {:induction false} AnomaliesInColumnOrder(t: Table, cols: seq<nat>)
    requires |t| >= 2 && HasColumns(t, cols)
    ensures IsSubsequence(ColumnsOf(Anomalies(t, cols), UnusualKind), cols)
  {
    if cols != [] {
      var init, last := cols[..|cols| - 1], cols[|cols| - 1];
      AnomaliesInColumnOrder(t, init);
      ColumnsOfAppend(Anomalies(t, init), AnomalyOf(t, last), UnusualKind);
      var before := ColumnsOf(Anomalies(t, init), UnusualKind);
      if AnomalyFires(t, last) {
        assert ColumnsOf(AnomalyOf(t, last), UnusualKind) == [last];
        assert (before + [last])[..|before|] == before;
      } else {
        assert ColumnsOf(AnomalyOf(t, last), UnusualKind) == [];
        assert before + [] == before;
      }
    }
  }

  // ---------------------------------------------------------------------
  // Properties of the engine's answer

  /** An empty table yields exactly [NoData]; a table of one to nine rows
      (fewer than MinHalf rows per half) yields exactly [NotEnough]; and each
      answer is given in that case only. */
  lemma GuardClauses(t: Table, cols: seq<nat>)
    requires HasColumns(t, cols)
    ensures ExpectedInsights(t, cols) == [NoData] <==> |t| == 0
    ensures ExpectedInsights(t, cols) == [NotEnough] <==> 1 <= |t| <= 9
  {
    var r := ExpectedInsights(t, cols);
    if Analysed(t) && r != [Consistent] {
      assert r[0].Trend? || r[0].Unusual?;
    }
  }

  /** Trend(c, up) is reported iff c is a numeric column whose halves' means
      differ by more than the threshold, and up says whether the mean rose. */
  lemma TrendMembership(t: Table, cols: seq<nat>, c: nat, up: bool)
    requires HasColumns(t, cols) && Analysed(t)
    ensures Trend(c, up) in ExpectedInsights(t, cols) <==>
              c in cols && Shifted(t, c) && up == Rising(t, c)
  {
    TrendsMembership(t, cols, c, up);
  }

  /** Unusual(c) is reported iff c is a numeric column with an outlier among
      its recent values. */
  lemma UnusualMembership(t: Table, cols: seq<nat>, c: nat)
    requires HasColumns(t, cols) && Analysed(t)
    ensures Unusual(c) in ExpectedInsights(t, cols) <==> c in cols && AnomalyFires(t, c)
  {
    AnomaliesMembership(t, cols, c);
  }

  /** The fallback is present iff no column fires either rule, and it then
      stands alone. */
  lemma ConsistentIff(t: Table, cols: seq<nat>)
    requires HasColumns(t, cols) && Analysed(t)
    ensures Consistent in ExpectedInsights(t, cols) <==>
              forall c :: c in cols ==> !Shifted(t, c) && !AnomalyFires(t, c)
    ensures Consistent in ExpectedInsights(t, cols) ==> ExpectedInsights(t, cols) == [Consistent]
  {
    var found := Trends(t, cols) + Anomalies(t, cols);
    if found == [] {
      forall c | c in cols
        ensures !Shifted(t, c) && !AnomalyFires(t, c)
      {
        TrendsMembership(t, cols, c, Rising(t, c));
        AnomaliesMembership(t, cols, c);
      }
    } else {
      var x := found[0];
      assert x.Trend? || x.Unusual?;
      if x.Trend? {
        TrendsMembership(t, cols, x.col, x.increased);
        assert x in Trends(t, cols);
      } else {
        AnomaliesMembership(t, cols, x.col);
        assert x in Anomalies(t, cols);
      }
    }
  }

  /** The answer is never empty, and has at most one trend and one anomaly
      insight per numeric column. */
  lemma LengthBounds(t: Table, cols: seq<nat>)
    requires HasColumns(t, cols)
    ensures 1 <= |ExpectedInsights(t, cols)|
    ensures |ExpectedInsights(t, cols)| <= if cols == [] then 1 else 2 * |cols|
    ensures Analysed(t) ==> |ColumnsOf(ExpectedInsights(t, cols), TrendKind)| <= |cols|
  {
    if Analysed(t) {
      var r := ExpectedInsights(t, cols);
      var trends, anomalies := Trends(t, cols), Anomalies(t, cols);
      ColumnsOfNone(anomalies, TrendKind);
      if r == [Consistent] {
        assert ColumnsOf(r, TrendKind) == ColumnsOf([], TrendKind) + [];
      } else {
        ColumnsOfAppend(trends, anomalies, TrendKind);
        TrendsInColumnOrder(t, cols);
        SubsequenceLength(ColumnsOf(trends, TrendKind), cols);
      }
    }
  }

  lemma {:induction false} SubsequenceLength(a: seq<nat>, b: seq<nat>)
    requires IsSubsequence(a, b)
    ensures |a| <= |b|
    decreases |b|
  {
    if b != [] {
      if IsSubsequence(a, b[..|b| - 1]) {
        SubsequenceLength(a, b[..|b| - 1]);
      } else {
        SubsequenceLength(a[..|a| - 1], b[..|b| - 1]);
      }
    }
  }

  /** Output order: every trend insight comes before every anomaly insight,
      and within each group the columns follow the order of cols. */
  lemma OutputOrder(t: Table, cols: seq<nat>)
    requires HasColumns(t, cols) && Analysed(t)
    ensures var r := ExpectedInsights(t, cols);
              r == [Consistent] || forall i :: 0 <= i < |r| ==> r[i].Trend? || r[i].Unusual?
    ensures var r := ExpectedInsights(t, cols);
              forall i, j :: 0 <= i < j < |r| && r[i].Unusual? ==> r[j].Unusual?
    ensures IsSubsequence(ColumnsOf(ExpectedInsights(t, cols), TrendKind), cols)
    ensures IsSubsequence(ColumnsOf(ExpectedInsights(t, cols), UnusualKind), cols)
  {
    var r := ExpectedInsights(t, cols);
    var trends, anomalies := Trends(t, cols), Anomalies(t, cols);
    TrendsInColumnOrder(t, cols);
    AnomaliesInColumnOrder(t, cols);
    if r == [Consistent] {
      assert ColumnsOf(r, TrendKind) == [] && ColumnsOf(r, UnusualKind) == [] by {
        assert r[..0] == [];
      }
      assert IsSubsequence([], []);
      EmptySubsequence(cols);
    } else {
      forall i, j | 0 <= i < j < |r| && r[i].Unusual?
        ensures r[j].Unusual?
      {
        assert i >= |trends|;
      }
      ColumnsOfNone(anomalies, TrendKind);
      ColumnsOfNone(trends, UnusualKind);
      ColumnsOfAppend(trends, anomalies, TrendKind);
      ColumnsOfAppend(trends, anomalies, UnusualKind);
      assert ColumnsOf(trends, TrendKind) + [] == ColumnsOf(trends, TrendKind);
      assert [] + ColumnsOf(anomalies, UnusualKind) == ColumnsOf(anomalies, UnusualKind);
    }
  }

  lemma {:induction false} EmptySubsequence(b: seq<nat>)
    ensures IsSubsequence([], b)
  {
    if b != [] {
      EmptySubsequence(b[..|b| - 1]);
    }
  }

  /** With distinct numeric columns, no column is reported twice by the same
      rule. */
  lemma AtMostOncePerColumn(t: Table, cols: seq<nat>)
    requires HasColumns(t, cols) && Analysed(t) && Distinct(cols)
    ensures Distinct(ColumnsOf(ExpectedInsights(t, cols), TrendKind))
    ensures Distinct(ColumnsOf(ExpectedInsights(t, cols), UnusualKind))
  {
    OutputOrder(t, cols);
    SubsequenceOfDistinct(ColumnsOf(ExpectedInsights(t, cols), TrendKind), cols);
    SubsequenceOfDistinct(ColumnsOf(ExpectedInsights(t, cols), UnusualKind), cols);
  }

  /** A column with zero sample variance is never reported as unusual. */
  lemma ZeroSpreadNeverUnusual(t: Table, cols: seq<nat>, c: nat)
    requires HasColumns(t, cols) && Analysed(t) && HasColumn(t, c)
    requires Variance(Column(t, c)) == 0.0
    ensures Unusual(c) !in ExpectedInsights(t, cols)
  {
    ZeroSpreadNoAnomaly(t, c);
    UnusualMembership(t, cols, c);
  }

  lemma ZeroSpreadNoAnomaly(t: Table, c: nat)
    requires |t| >= 2 && HasColumn(t, c)
    requires Variance(Column(t, c)) == 0.0
    ensures !AnomalyFires(t, c)
  {
    var whole, recent := Column(t, c), Column(Recent(t), c);
    var offset := |t| - |Recent(t)|;
    forall k | 0 <= k < |recent|
      ensures !Outlier(recent[k], whole)
    {
      assert recent[k] == whole[offset + k];
      ZeroVarianceNoOutlier(whole, offset + k);
    }
  }

  /** In particular a constant column is never reported as unusual. */
  lemma ConstantColumnNeverUnusual(t: Table, cols: seq<nat>, c: nat, x: real)
    requires HasColumns(t, cols) && Analysed(t) && HasColumn(t, c)
    requires Constant(Column(t, c), x)
    ensures Unusual(c) !in ExpectedInsights(t, cols)
  {
    ConstantStats(Column(t, c), x);
    ZeroSpreadNeverUnusual(t, cols, c);
  }

  /** Because the baseline is not made absolute, a column whose negative mean
      does not move at all is still reported as having decreased. */
  lemma FlatNegativeColumnReportedDecreased(t: Table, cols: seq<nat>, c: nat)
    requires HasColumns(t, cols) && Analysed(t) && c in cols
    requires MeanFirst(t, c) == MeanSecond(t, c) < -Epsilon
    ensures Trend(c, false) in ExpectedInsights(t, cols)
  {
    TrendMembership(t, cols, c, false);
  }

  /** For a non-negative baseline the threshold as written agrees with the one
      taken on the baseline's absolute value. */
  lemma NonNegativeBaselineMatchesAbs(meanFirst: real, meanSecond: real)
    requires meanFirst >= 0.0
    ensures ExceedsThreshold(meanFirst, meanSecond) <==>
              Abs(meanSecond - meanFirst) > TrendRatio * (Abs(meanFirst) + Epsilon)
  {
  }

  /** A rise of the mean from 5000 to 6000 is a trend; a rise to 5200 is not. */
  lemma ThresholdExamples()
    ensures ExceedsThreshold(5000.0, 6000.0)
    ensures !ExceedsThreshold(5000.0, 5200.0)
  {
  }
}
