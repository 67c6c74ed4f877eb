/** The decisions of show_advanced_stats and of the hourly ranking that do
    not depend on scipy: when the one-against-one comparison runs and whom
    it names, when an ANOVA runs, and the weekday-by-preparer percentage
    table. The p-values scipy computes are inputs. */
module Stats {
  import opened Wrappers
  import opened Text
  import opened Sorting
  import opened Normalize
  import Registry

  // ---- one against one ----

  /** df[df['Zubereitet_Clean'] == key]['gewicht_g']: the weight cells of the
      rows carrying that key, in frame order; a row without a key never matches. */
  function WeightsOf(frame: seq<Kebap>, key: string): (ws: seq<Value>)
    ensures |ws| <= |frame|
    ensures forall w :: w in ws ==> exists i :: 0 <= i < |frame| && frame[i].preparerKey == Some(key) && frame[i].weight == w
  {
    if frame == [] then []
    else
      var rest := WeightsOf(frame[1..], key);
      assert forall w :: w in rest ==> exists i :: 1 <= i < |frame| && frame[i].preparerKey == Some(key) && frame[i].weight == w by {
        forall w | w in rest ensures exists i :: 1 <= i < |frame| && frame[i].preparerKey == Some(key) && frame[i].weight == w {
          var i :| 0 <= i < |frame[1..]| && frame[1..][i].preparerKey == Some(key) && frame[1..][i].weight == w;
          assert frame[i + 1] == frame[1..][i];
        }
      }
      if frame[0].preparerKey == Some(key) then [frame[0].weight] + rest else rest
  }

  /** The column Zubereitet_Clean. */
  function PreparerKeys(frame: seq<Kebap>): (keys: seq<Option<string>>)
    ensures |keys| == |frame| && forall i :: 0 <= i < |frame| ==> keys[i] == frame[i].preparerKey
  {
    seq(|frame|, i requires 0 <= i < |frame| => frame[i].preparerKey)
  }

  /** len(data_a) counts every row carrying the key, whatever its weight cell holds. */
  lemma {:induction false} WeightsOfCountsRows(frame: seq<Kebap>, key: string)
    ensures |WeightsOf(frame, key)| == multiset(PreparerKeys(frame))[Some(key)]
  {
    if frame != [] {
      WeightsOfCountsRows(frame[1..], key);
      assert PreparerKeys(frame) == [frame[0].preparerKey] + PreparerKeys(frame[1..]);
    }
  }

  /** The numbers of a weight column; Series.mean() skips NaN cells. */
  function Numbers(ws: seq<Value>): (xs: seq<int>)
    ensures |xs| <= |ws|
    ensures forall x :: x in xs <==> Num(x) in ws
    ensures forall x :: multiset(xs)[x] == multiset(ws)[Num(x)]
  {
    if ws == [] then []
    else
      assert ws == [ws[0]] + ws[1..];
      if ws[0].Num? then [ws[0].n] + Numbers(ws[1..]) else Numbers(ws[1..])
  }

  /** Selecting by key works piece by piece, keeping the frame's order: every
      row carrying the key contributes its weight cell once, and no other row does. */
  lemma {:induction false} WeightsOfAppend(a: seq<Kebap>, b: seq<Kebap>, key: string)
    ensures WeightsOf(a + b, key) == WeightsOf(a, key) + WeightsOf(b, key)
    ensures forall row :: WeightsOf([row], key) == if row.preparerKey == Some(key) then [row.weight] else []
  {
    if a != [] {
      assert (a + b)[1..] == a[1..] + b;
      WeightsOfAppend(a[1..], b, key);
    } else {
      assert a + b == b;
    }
    forall row ensures WeightsOf([row], key) == if row.preparerKey == Some(key) then [row.weight] else [] {
      assert [row][1..] == [];
    }
  }

  function Sum(xs: seq<int>): int
  {
    if xs == [] then 0 else xs[0] + Sum(xs[1..])
  }

  /** Series.mean(): NaN (None) when there is no number to average. */
  function Mean(xs: seq<int>): Option<real>
  {
    if |xs| == 0 then None else Some(Sum(xs) as real / |xs| as real)
  }

  lemma {:induction false} SumBounds(xs: seq<int>, lo: int, hi: int)
    requires forall i :: 0 <= i < |xs| ==> lo <= xs[i] <= hi
    ensures |xs| * lo <= Sum(xs) <= |xs| * hi
  {
    if xs != [] {
      SumBounds(xs[1..], lo, hi);
      assert xs[0] == xs[0];
    }
  }

  /** A mean lies between the smallest and the largest weight averaged. */
  lemma MeanBetween(xs: seq<int>, lo: int, hi: int)
    requires |xs| > 0
    requires forall i :: 0 <= i < |xs| ==> lo <= xs[i] <= hi
    ensures Mean(xs).Some? && lo as real <= Mean(xs).value <= hi as real
  {
    SumBounds(xs, lo, hi);
    var n := |xs| as real;
    CastProduct(|xs|, lo);
    CastProduct(|xs|, hi);
    DivideBounds(Sum(xs) as real, n, lo as real, hi as real);
  }

  lemma CastProduct(a: int, b: int)
    ensures (a * b) as real == a as real * b as real
  {
  }

  lemma DivideBounds(s: real, n: real, lo: real, hi: real)
    requires n > 0.0 && n * lo <= s <= n * hi
    ensures lo <= s / n <= hi
  {
    var m := s / n;
    assert m * n == s;
  }

  /** data_a.mean() > data_b.mean(): every comparison with NaN is False. */
  predicate Greater(x: Option<real>, y: Option<real>)
  {
    x.Some? && y.Some? && x.value > y.value
  }

  /** What the comparison shows: the same key twice, too few rows for the
      t-test, no significant difference, or the key named as heavier. */
  datatype PairVerdict = SameLabel | TooFewRows | NotSignificant | Heavier(key: string)

  /** The one-against-one block for keys a and b; p is the Welch test's p-value,
      None when scipy returns NaN. */
  function ComparePair(frame: seq<Kebap>, a: string, b: string, p: Option<real>): (v: PairVerdict)
    ensures v == SameLabel <==> a == b
    ensures v.Heavier? ==> a != b && (v.key == a || v.key == b) && p.Some? && p.value < 0.05
  {
    if a == b then SameLabel
    else
      var wa := WeightsOf(frame, a);
      var wb := WeightsOf(frame, b);
      if |wa| < 2 || |wb| < 2 then TooFewRows
      else if !(p.Some? && p.value < 0.05) then NotSignificant
      else Heavier(if Greater(Mean(Numbers(wa)), Mean(Numbers(wb))) then a else b)
  }

  function RowCount(frame: seq<Kebap>, key: string): nat
  {
    multiset(PreparerKeys(frame))[Some(key)]
  }

  /** The gates: the same key never compares; two distinct keys need two rows
      each, counted with NaN weights; a p-value of 0.05 or more, or NaN, is
      not significant. */
  lemma PairGates(frame: seq<Kebap>, a: string, b: string, p: Option<real>)
    ensures ComparePair(frame, a, b, p) == SameLabel <==> a == b
    ensures ComparePair(frame, a, b, p) == TooFewRows <==> a != b && (RowCount(frame, a) < 2 || RowCount(frame, b) < 2)
    ensures ComparePair(frame, a, b, p) == NotSignificant <==>
              a != b && RowCount(frame, a) >= 2 && RowCount(frame, b) >= 2 && !(p.Some? && p.value < 0.05)
  {
    WeightsOfCountsRows(frame, a);
    WeightsOfCountsRows(frame, b);
  }

  function MeanOf(frame: seq<Kebap>, key: string): Option<real>
  {
    Mean(Numbers(WeightsOf(frame, key)))
  }

  /** The key named heavier is one of the two, and it is a exactly when a's
      mean is the larger one; equal means, or a mean that is NaN, name b. */
  lemma HeavierIsTheLargerMean(frame: seq<Kebap>, a: string, b: string, p: Option<real>)
    requires ComparePair(frame, a, b, p).Heavier?
    ensures ComparePair(frame, a, b, p).key == a || ComparePair(frame, a, b, p).key == b
    ensures ComparePair(frame, a, b, p).key == a <==> Greater(MeanOf(frame, a), MeanOf(frame, b))
    ensures MeanOf(frame, a).Some? && MeanOf(frame, b).Some? && MeanOf(frame, a).value == MeanOf(frame, b).value ==>
              ComparePair(frame, a, b, p) == Heavier(b) && ComparePair(frame, b, a, p) == Heavier(a)
  {
  }

  /** Swapping A and B names the same key whenever the two means differ. */
  lemma PairSymmetric(frame: seq<Kebap>, a: string, b: string, p: Option<real>)
    requires MeanOf(frame, a).Some? && MeanOf(frame, b).Some? && MeanOf(frame, a).value != MeanOf(frame, b).value
    ensures ComparePair(frame, a, b, p) == ComparePair(frame, b, a, p)
  {
  }

  // ---- the global tests ----

  /** What f_oneway gives back: an exception, a NaN p-value, or a p-value. */
  datatype TestOutcome = Raised | NaN | PValue(p: real)

  /** Skipped when there is one group or none; Failed when the test raises;
      otherwise whether p < 0.05 (a NaN p-value is no effect). */
  datatype AnovaVerdict = Skipped | Failed | NoEffect | Effect

  /** The groups df.groupby(key) forms: one per present key, NaN keys dropped. */
  function Groups<K(==)>(keys: seq<Option<K>>): set<K>
  {
    set i | 0 <= i < |keys| && keys[i].Some? :: keys[i].value
  }

  /** if len(groups) > 1: f_oneway(*groups), inside a try block. */
  function Anova<K(==)>(keys: seq<Option<K>>, test: TestOutcome): (v: AnovaVerdict)
    ensures v == Skipped <==> |Groups(keys)| <= 1
    ensures v == Failed ==> test.Raised?
    ensures v == Effect ==> test.PValue? && test.p < 0.05
    ensures |Groups(keys)| > 1 ==> (v == Failed <==> test.Raised?) && (v == Effect <==> test.PValue? && test.p < 0.05)
  {
    if |Groups(keys)| <= 1 then Skipped
    else match test
      case Raised => Failed
      case NaN => NoEffect
      case PValue(p) => if p < 0.05 then Effect else NoEffect
  }

  /** The test runs exactly when two rows carry different present keys. */
  lemma {:induction false} AnovaRunsIffTwoKeys<K>(keys: seq<Option<K>>, test: TestOutcome)
    ensures Anova(keys, test) != Skipped <==>
              exists i, j :: 0 <= i < |keys| && 0 <= j < |keys| && keys[i].Some? && keys[j].Some? && keys[i].value != keys[j].value
  {
    var g := Groups(keys);
    if exists i, j :: 0 <= i < |keys| && 0 <= j < |keys| && keys[i].Some? && keys[j].Some? && keys[i].value != keys[j].value {
      var i, j :| 0 <= i < |keys| && 0 <= j < |keys| && keys[i].Some? && keys[j].Some? && keys[i].value != keys[j].value;
      assert {keys[i].value, keys[j].value} <= g;
      assert |{keys[i].value, keys[j].value}| == 2;
      SubsetSize({keys[i].value, keys[j].value}, g);
    }
    if |g| > 1 {
      var x :| x in g;
      assert |g - {x}| == |g| - 1;
      var y :| y in g - {x};
      var i :| 0 <= i < |keys| && keys[i].Some? && keys[i].value == x;
      var j :| 0 <= j < |keys| && keys[j].Some? && keys[j].value == y;
    }
  }

  lemma SubsetSize<K>(a: set<K>, b: set<K>)
    requires a <= b
    ensures |a| <= |b|
  {
    assert b == a + (b - a);
  }

  /** The columns Wochentag_DE and Stunde_Ganz. */
  function WeekdayKeys(frame: seq<Kebap>): (keys: seq<Option<string>>)
    ensures |keys| == |frame| && forall i :: 0 <= i < |frame| ==> keys[i] == frame[i].weekday
  {
    seq(|frame|, i requires 0 <= i < |frame| => frame[i].weekday)
  }

  function HourKeys(frame: seq<Kebap>): (keys: seq<Option<nat>>)
    ensures |keys| == |frame| && forall i :: 0 <= i < |frame| ==> keys[i] == frame[i].hour
  {
    seq(|frame|, i requires 0 <= i < |frame| => frame[i].hour)
  }

  /** The three global tests group by key, weekday key and whole hour. */
  function AnovaByPreparer(frame: seq<Kebap>, test: TestOutcome): (v: AnovaVerdict)
    ensures v != Skipped <==>
              (exists i, j :: 0 <= i < |frame| && 0 <= j < |frame| &&
                 frame[i].preparerKey.Some? && frame[j].preparerKey.Some? && frame[i].preparerKey.value != frame[j].preparerKey.value)
  {
    AnovaRunsIffTwoKeys(PreparerKeys(frame), test);
    Anova(PreparerKeys(frame), test)
  }

  function AnovaByWeekday(frame: seq<Kebap>, test: TestOutcome): (v: AnovaVerdict)
    ensures v != Skipped <==>
              (exists i, j :: 0 <= i < |frame| && 0 <= j < |frame| &&
                 frame[i].weekday.Some? && frame[j].weekday.Some? && frame[i].weekday.value != frame[j].weekday.value)
  {
    var keys := WeekdayKeys(frame);
    AnovaRunsIffTwoKeys(keys, test);
    Anova(keys, test)
  }

  function AnovaByHour(frame: seq<Kebap>, test: TestOutcome): (v: AnovaVerdict)
    ensures v != Skipped <==>
              (exists i, j :: 0 <= i < |frame| && 0 <= j < |frame| &&
                 frame[i].hour.Some? && frame[j].hour.Some? && frame[i].hour.value != frame[j].hour.value)
  {
    var keys := HourKeys(frame);
    AnovaRunsIffTwoKeys(keys, test);
    Anova(keys, test)
  }

  // ---- who works when ----

  /** df_active: the rows whose key is not "IDIOT"; a row without a key stays. */
  function Active(frame: seq<Kebap>): (active: seq<Kebap>)
    ensures forall k :: multiset(active)[k] == if k.preparerKey == Some("IDIOT") then 0 else multiset(frame)[k]
  {
    if frame == [] then []
    else
      assert frame == [frame[0]] + frame[1..];
      if frame[0].preparerKey == Some("IDIOT") then Active(frame[1..])
      else [frame[0]] + Active(frame[1..])
  }

  /** The (weekday key, key) pairs pd.crosstab counts: rows with NaN on
      either side are not counted. */
  function CrossPairs(rows: seq<Kebap>): (pairs: seq<(string, string)>)
    ensures forall x :: x in pairs ==> exists k :: k in rows && k.weekday == Some(x.0) && k.preparerKey == Some(x.1)
  {
    if rows == [] then []
    else if rows[0].weekday.Some? && rows[0].preparerKey.Some? then
      [(rows[0].weekday.value, rows[0].preparerKey.value)] + CrossPairs(rows[1..])
    else CrossPairs(rows[1..])
  }

  /** The rows pd.crosstab puts in the cell (day, key). */
  function CellRows(rows: seq<Kebap>, day: string, key: string): nat
  {
    if rows == [] then 0
    else (if rows[0].weekday == Some(day) && rows[0].preparerKey == Some(key) then 1 else 0) + CellRows(rows[1..], day, key)
  }

  /** The rows of a weekday that carry a key. */
  function DayRows(rows: seq<Kebap>, day: string): nat
  {
    if rows == [] then 0
    else (if rows[0].weekday == Some(day) && rows[0].preparerKey.Some? then 1 else 0) + DayRows(rows[1..], day)
  }

  /** The rows of a weekday that carry a key other than "IDIOT". */
  function ActiveDayRows(rows: seq<Kebap>, day: string): nat
  {
    if rows == [] then 0
    else (if rows[0].weekday == Some(day) && rows[0].preparerKey.Some? && rows[0].preparerKey != Some("IDIOT") then 1 else 0)
         + ActiveDayRows(rows[1..], day)
  }

  /** The pairs of the contingency table. */
  function ActivePairs(frame: seq<Kebap>): seq<(string, string)>
  {
    CrossPairs(Active(frame))
  }

  /** How many pairs fall in a cell of the crosstab. */
  function Count(pairs: seq<(string, string)>, day: string, key: string): nat
  {
    if pairs == [] then 0
    else Count(pairs[..|pairs| - 1], day, key) + (if pairs[|pairs| - 1] == (day, key) then 1 else 0)
  }

  /** How many pairs fall in a row of the crosstab. */
  function DayTotal(pairs: seq<(string, string)>, day: string): nat
  {
    if pairs == [] then 0
    else DayTotal(pairs[..|pairs| - 1], day) + (if pairs[|pairs| - 1].0 == day then 1 else 0)
  }

  function KeysOf(pairs: seq<(string, string)>): (keys: seq<string>)
    ensures |keys| == |pairs| && forall i :: 0 <= i < |pairs| ==> keys[i] == pairs[i].1
  {
    seq(|pairs|, i requires 0 <= i < |pairs| => pairs[i].1)
  }

  /** The crosstab's columns: its keys once each, in sorted order. */
  function Columns(pairs: seq<(string, string)>): seq<string>
  {
    SortStrings(Registry.Unique(KeysOf(pairs)))
  }

  /** reindex(days_order).dropna(how='all'): the labels of days, in that order,
      that have a row in the crosstab. */
  function DaysWithData(days: seq<string>, pairs: seq<(string, string)>): seq<string>
  {
    if days == [] then []
    else if DayTotal(pairs, days[0]) > 0 then [days[0]] + DaysWithData(days[1..], pairs)
    else DaysWithData(days[1..], pairs)
  }

  /** c as a percentage of t. */
  function Percent(c: nat, t: nat): real
    requires t > 0
  {
    100.0 * c as real / t as real
  }

  /** One row of normalize='index' times 100: each count as a share of the row's total. */
  function PercentRow(pairs: seq<(string, string)>, day: string, keys: seq<string>): seq<real>
    requires DayTotal(pairs, day) > 0
  {
    if keys == [] then []
    else [Percent(Count(pairs, day, keys[0]), DayTotal(pairs, day))] + PercentRow(pairs, day, keys[1..])
  }

  function PercentRows(pairs: seq<(string, string)>, days: seq<string>, keys: seq<string>): seq<seq<real>>
    requires forall i :: 0 <= i < |days| ==> DayTotal(pairs, days[i]) > 0
  {
    if days == [] then []
    else [PercentRow(pairs, days[0], keys)] + PercentRows(pairs, days[1..], keys)
  }

  datatype Table = Table(days: seq<string>, keys: seq<string>, cells: seq<seq<real>>)

  lemma {:induction false} DaysWithDataHaveData(days: seq<string>, pairs: seq<(string, string)>)
    ensures forall d :: d in DaysWithData(days, pairs) <==> d in days && DayTotal(pairs, d) > 0
  {
    if days != [] {
      DaysWithDataHaveData(days[1..], pairs);
      assert days == [days[0]] + days[1..];
    }
  }

  /** ct_prob: weekday rows in Mo..So order, one column per key. */
  function PercentTable(frame: seq<Kebap>): (t: Table)
    ensures forall d :: d in t.days ==> d in GermanDays
    ensures |t.cells| == |t.days|
  {
    var pairs := ActivePairs(frame);
    var days := DaysWithData(GermanDays, pairs);
    DaysWithDataHaveData(GermanDays, pairs);
    PercentRowsShape(pairs, days, Columns(pairs));
    Table(days, Columns(pairs), PercentRows(pairs, days, Columns(pairs)))
  }

  /** The whole block: the chi-square test runs first, and when it raises only
      the warning is shown (None). */
  function Contingency(frame: seq<Kebap>, chi2: TestOutcome): (t: Option<Table>)
    ensures t.None? <==> chi2.Raised?
    ensures t.Some? ==> t.value == PercentTable(frame)
  {
    if chi2.Raised? then None else Some(PercentTable(frame))
  }

  // ---- properties of the table ----

  lemma {:induction false} ActiveDropsIdiot(frame: seq<Kebap>)
    ensures forall x :: x in ActivePairs(frame) ==> x.1 != "IDIOT"
  {
    forall x | x in ActivePairs(frame) ensures x.1 != "IDIOT" {
      var k :| k in Active(frame) && k.weekday == Some(x.0) && k.preparerKey == Some(x.1);
    }
  }

  lemma ColumnsAreTheKeys(pairs: seq<(string, string)>)
    ensures forall c :: c in Columns(pairs) <==> exists i :: 0 <= i < |pairs| && pairs[i].1 == c
    ensures Sorted(Columns(pairs)) && Registry.NoDuplicates(Columns(pairs))
  {
    var u := Registry.Unique(KeysOf(pairs));
    SortStringsElements(u);
    Registry.SortKeepsNoDuplicates(u);
    forall c ensures c in KeysOf(pairs) <==> exists i :: 0 <= i < |pairs| && pairs[i].1 == c {
      if c in KeysOf(pairs) { var i :| 0 <= i < |pairs| && KeysOf(pairs)[i] == c; }
    }
  }

  /** No column of the table is the "IDIOT" key, and the columns are sorted
      and distinct. */
  lemma NoIdiotColumn(frame: seq<Kebap>)
    ensures "IDIOT" !in PercentTable(frame).keys
    ensures Sorted(PercentTable(frame).keys) && Registry.NoDuplicates(PercentTable(frame).keys)
  {
    var pairs := ActivePairs(frame);
    ActiveDropsIdiot(frame);
    ColumnsAreTheKeys(pairs);
  }

  /** Position of a key in Mo..So. */
  function DayRank(d: string): nat
  {
    if d == "Mo" then 0 else if d == "Di" then 1 else if d == "Mi" then 2 else if d == "Do" then 3
    else if d == "Fr" then 4 else if d == "Sa" then 5 else 6
  }

  lemma {:induction false} DaysWithDataInOrder(k: nat, pairs: seq<(string, string)>)
    requires k <= 7
    ensures forall i :: 0 <= i < |DaysWithData(GermanDays[k..], pairs)| ==> DayRank(DaysWithData(GermanDays[k..], pairs)[i]) >= k
    ensures forall i, j :: 0 <= i < j < |DaysWithData(GermanDays[k..], pairs)| ==>
              DayRank(DaysWithData(GermanDays[k..], pairs)[i]) < DayRank(DaysWithData(GermanDays[k..], pairs)[j])
    decreases 7 - k
  {
    if k < 7 {
      DaysWithDataInOrder(k + 1, pairs);
      assert GermanDays[k..][1..] == GermanDays[k + 1..];
      assert DayRank(GermanDays[k]) == k;
    }
  }

  /** The rows are the days of Mo..So that have data, in that order. */
  lemma RowsInWeekOrder(frame: seq<Kebap>)
    ensures forall d :: d in PercentTable(frame).days <==> d in GermanDays && DayTotal(ActivePairs(frame), d) > 0
    ensures forall i, j :: 0 <= i < j < |PercentTable(frame).days| ==>
              DayRank(PercentTable(frame).days[i]) < DayRank(PercentTable(frame).days[j])
  {
    DaysWithDataHaveData(GermanDays, ActivePairs(frame));
    DaysWithDataInOrder(0, ActivePairs(frame));
    assert GermanDays[0..] == GermanDays;
  }

  function SumCounts(pairs: seq<(string, string)>, day: string, keys: seq<string>): nat
  {
    if keys == [] then 0 else Count(pairs, day, keys[0]) + SumCounts(pairs, day, keys[1..])
  }

  function RealSum(xs: seq<real>): real
  {
    if xs == [] then 0.0 else xs[0] + RealSum(xs[1..])
  }

  /** Adding one pair adds one to the row sum of its day once per column that is its key. */
  lemma {:induction false} SumCountsStep(pairs: seq<(string, string)>, x: (string, string), day: string, keys: seq<string>)
    ensures SumCounts(pairs + [x], day, keys) ==
              SumCounts(pairs, day, keys) + (if x.0 == day then multiset(keys)[x.1] else 0)
  {
    if keys != [] {
      SumCountsStep(pairs, x, day, keys[1..]);
      assert (pairs + [x])[..|pairs + [x]| - 1] == pairs;
      assert keys == [keys[0]] + keys[1..];
    }
  }

  /** Over distinct columns covering every key, a row's counts add up to the day's total. */
  lemma {:induction false} CountsAddUp(pairs: seq<(string, string)>, day: string, keys: seq<string>)
    requires Registry.NoDuplicates(keys)
    requires forall i :: 0 <= i < |pairs| ==> pairs[i].1 in keys
    ensures SumCounts(pairs, day, keys) == DayTotal(pairs, day)
  {
    if pairs == [] {
      assert SumCounts(pairs, day, keys) == 0 by { SumCountsOfNothing(day, keys); }
    } else {
      var init := pairs[..|pairs| - 1];
      var x := pairs[|pairs| - 1];
      assert pairs == init + [x];
      CountsAddUp(init, day, keys);
      SumCountsStep(init, x, day, keys);
      Registry.NoDuplicatesMultiset(keys);
      assert x.1 in keys;
      assert multiset(keys)[x.1] == 1;
    }
  }

  lemma {:induction false} SumCountsOfNothing(day: string, keys: seq<string>)
    ensures SumCounts([], day, keys) == 0
  {
    if keys != [] { SumCountsOfNothing(day, keys[1..]); }
  }

  lemma {:induction false} PercentRowSum(pairs: seq<(string, string)>, day: string, keys: seq<string>)
    requires DayTotal(pairs, day) > 0
    ensures RealSum(PercentRow(pairs, day, keys)) == 100.0 * SumCounts(pairs, day, keys) as real / DayTotal(pairs, day) as real
  {
    if keys != [] {
      PercentRowSum(pairs, day, keys[1..]);
      var t := DayTotal(pairs, day) as real;
      var c := Count(pairs, day, keys[0]) as real;
      var s := SumCounts(pairs, day, keys[1..]) as real;
      AddShares(c, s, t);
      assert SumCounts(pairs, day, keys) as real == c + s;
    }
  }

  lemma AddShares(c: real, s: real, t: real)
    requires t > 0.0
    ensures 100.0 * c / t + 100.0 * s / t == 100.0 * (c + s) / t
  {
  }

  lemma WholeShare(t: real)
    requires t > 0.0
    ensures 100.0 * t / t == 100.0
  {
    DivideBounds(100.0 * t, t, 100.0, 100.0);
  }

  lemma ShareBounds(c: real, t: real)
    requires 0.0 <= c <= t && t > 0.0
    ensures 0.0 <= 100.0 * c / t <= 100.0
  {
    DivideBounds(100.0 * c, t, 0.0, 100.0);
  }

  lemma {:induction false} CountWithinDay(pairs: seq<(string, string)>, day: string, key: string)
    ensures Count(pairs, day, key) <= DayTotal(pairs, day)
  {
    if pairs != [] { CountWithinDay(pairs[..|pairs| - 1], day, key); }
  }

  lemma {:induction false} PercentRowBounds(pairs: seq<(string, string)>, day: string, keys: seq<string>)
    requires DayTotal(pairs, day) > 0
    ensures |PercentRow(pairs, day, keys)| == |keys|
    ensures forall j :: 0 <= j < |keys| ==> 0.0 <= PercentRow(pairs, day, keys)[j] <= 100.0
  {
    if keys != [] {
      PercentRowBounds(pairs, day, keys[1..]);
      CountWithinDay(pairs, day, keys[0]);
      ShareBounds(Count(pairs, day, keys[0]) as real, DayTotal(pairs, day) as real);
      forall j | 1 <= j < |keys| ensures PercentRow(pairs, day, keys)[j] == PercentRow(pairs, day, keys[1..])[j - 1] { }
    }
  }

  lemma {:induction false} PercentRowsShape(pairs: seq<(string, string)>, days: seq<string>, keys: seq<string>)
    requires forall i :: 0 <= i < |days| ==> DayTotal(pairs, days[i]) > 0
    ensures |PercentRows(pairs, days, keys)| == |days|
    ensures forall i :: 0 <= i < |days| ==> PercentRows(pairs, days, keys)[i] == PercentRow(pairs, days[i], keys)
  {
    if days != [] { PercentRowsShape(pairs, days[1..], keys); }
  }

  /** One retained row: a share per column, each between 0 and 100, adding up to 100. */
  lemma {:induction false} RowFacts(pairs: seq<(string, string)>, day: string, keys: seq<string>)
    requires DayTotal(pairs, day) > 0
    requires Registry.NoDuplicates(keys)
    requires forall i :: 0 <= i < |pairs| ==> pairs[i].1 in keys
    ensures |PercentRow(pairs, day, keys)| == |keys|
    ensures RealSum(PercentRow(pairs, day, keys)) == 100.0
    ensures forall j :: 0 <= j < |keys| ==> 0.0 <= PercentRow(pairs, day, keys)[j] <= 100.0
  {
    PercentRowSum(pairs, day, keys);
    CountsAddUp(pairs, day, keys);
    PercentRowBounds(pairs, day, keys);
    var t := DayTotal(pairs, day) as real;
    WholeShare(t);
  }

  lemma {:induction false} RowsFacts(pairs: seq<(string, string)>, days: seq<string>, keys: seq<string>)
    requires forall i :: 0 <= i < |days| ==> DayTotal(pairs, days[i]) > 0
    requires Registry.NoDuplicates(keys)
    requires forall i :: 0 <= i < |pairs| ==> pairs[i].1 in keys
    ensures |PercentRows(pairs, days, keys)| == |days|
    ensures forall r :: 0 <= r < |days| ==>
              |PercentRows(pairs, days, keys)[r]| == |keys|
              && RealSum(PercentRows(pairs, days, keys)[r]) == 100.0
              && forall j :: 0 <= j < |keys| ==> 0.0 <= PercentRows(pairs, days, keys)[r][j] <= 100.0
  {
    if days != [] {
      RowsFacts(pairs, days[1..], keys);
      RowFacts(pairs, days[0], keys);
    }
  }

  /** Every row of the table has one share per column, each share is between
      0 and 100, and the shares of a row add up to exactly 100. */
  lemma RowsSumTo100(frame: seq<Kebap>)
    ensures |PercentTable(frame).cells| == |PercentTable(frame).days|
    ensures forall r :: 0 <= r < |PercentTable(frame).cells| ==>
              |PercentTable(frame).cells[r]| == |PercentTable(frame).keys|
              && RealSum(PercentTable(frame).cells[r]) == 100.0
              && forall j :: 0 <= j < |PercentTable(frame).keys| ==> 0.0 <= PercentTable(frame).cells[r][j] <= 100.0
  {
    var pairs := ActivePairs(frame);
    var days := DaysWithData(GermanDays, pairs);
    DaysWithDataHaveData(GermanDays, pairs);
    ColumnsAreTheKeys(pairs);
    assert forall i :: 0 <= i < |pairs| ==> pairs[i].1 in Columns(pairs);
    RowsFacts(pairs, days, Columns(pairs));
  }

  // ---- the table and the frame ----

  lemma {:induction false} CountAppend(p: seq<(string, string)>, q: seq<(string, string)>, day: string, key: string)
    ensures Count(p + q, day, key) == Count(p, day, key) + Count(q, day, key)
    ensures DayTotal(p + q, day) == DayTotal(p, day) + DayTotal(q, day)
  {
    if q == [] {
      assert p + q == p;
    } else {
      var init := q[..|q| - 1];
      assert (p + q)[..|p + q| - 1] == p + init;
      CountAppend(p, init, day, key);
    }
  }

  /** pd.crosstab counts every row that has both a weekday and a key, once. */
  lemma {:induction false} CrossPairsCounts(rows: seq<Kebap>, day: string, key: string)
    ensures Count(CrossPairs(rows), day, key) == CellRows(rows, day, key)
    ensures DayTotal(CrossPairs(rows), day) == DayRows(rows, day)
  {
    if rows != [] {
      CrossPairsCounts(rows[1..], day, key);
      if rows[0].weekday.Some? && rows[0].preparerKey.Some? {
        var x := (rows[0].weekday.value, rows[0].preparerKey.value);
        CountAppend([x], CrossPairs(rows[1..]), day, key);
        assert [x][..0] == [];
      }
    }
  }

  /** Dropping the "IDIOT" rows empties that key's cells and nothing else. */
  lemma {:induction false} ActiveRows(frame: seq<Kebap>, day: string, key: string)
    ensures CellRows(Active(frame), day, key) == if key == "IDIOT" then 0 else CellRows(frame, day, key)
    ensures DayRows(Active(frame), day) == ActiveDayRows(frame, day)
  {
    if frame != [] {
      ActiveRows(frame[1..], day, key);
      if frame[0].preparerKey != Some("IDIOT") {
        assert ([frame[0]] + Active(frame[1..]))[1..] == Active(frame[1..]);
      }
    }
  }

  /** Each cell of the crosstab counts the rows of the frame with that weekday
      and that key, "IDIOT" excepted; each row total counts the day's rows
      that carry a key other than "IDIOT". */
  lemma CrosstabCounts(frame: seq<Kebap>, day: string, key: string)
    ensures Count(ActivePairs(frame), day, key) == if key == "IDIOT" then 0 else CellRows(frame, day, key)
    ensures DayTotal(ActivePairs(frame), day) == ActiveDayRows(frame, day)
  {
    CrossPairsCounts(Active(frame), day, key);
    ActiveRows(frame, day, key);
  }

  lemma {:induction false} PercentRowAt(pairs: seq<(string, string)>, day: string, keys: seq<string>, j: nat)
    requires DayTotal(pairs, day) > 0 && j < |keys|
    ensures |PercentRow(pairs, day, keys)| == |keys|
    ensures PercentRow(pairs, day, keys)[j] == Percent(Count(pairs, day, keys[j]), DayTotal(pairs, day))
  {
    PercentRowBounds(pairs, day, keys);
    if j > 0 {
      PercentRowAt(pairs, day, keys[1..], j - 1);
    }
  }

  lemma CellOfRows(pairs: seq<(string, string)>, days: seq<string>, keys: seq<string>, r: nat, j: nat)
    requires forall i :: 0 <= i < |days| ==> DayTotal(pairs, days[i]) > 0
    requires r < |days| && j < |keys|
    ensures |PercentRows(pairs, days, keys)| == |days| && |PercentRows(pairs, days, keys)[r]| == |keys|
    ensures PercentRows(pairs, days, keys)[r][j] == Percent(Count(pairs, days[r], keys[j]), DayTotal(pairs, days[r]))
  {
    PercentRowsShape(pairs, days, keys);
    PercentRowAt(pairs, days[r], keys, j);
  }

  /** A weekday has a row in the table exactly when some row of the frame for
      that day carries a key other than "IDIOT". */
  lemma TableDays(frame: seq<Kebap>)
    ensures forall d :: d in PercentTable(frame).days <==> d in GermanDays && ActiveDayRows(frame, d) > 0
  {
    var pairs := ActivePairs(frame);
    DaysWithDataHaveData(GermanDays, pairs);
    forall d ensures DayTotal(pairs, d) == ActiveDayRows(frame, d) {
      CrosstabCounts(frame, d, "IDIOT");
    }
  }

  lemma CellAgainstFrame(frame: seq<Kebap>, days: seq<string>, keys: seq<string>, r: nat, j: nat)
    requires forall i :: 0 <= i < |days| ==> DayTotal(ActivePairs(frame), days[i]) > 0
    requires r < |days| && j < |keys| && keys[j] != "IDIOT"
    ensures |PercentRows(ActivePairs(frame), days, keys)| == |days|
    ensures |PercentRows(ActivePairs(frame), days, keys)[r]| == |keys|
    ensures ActiveDayRows(frame, days[r]) > 0 && PercentRows(ActivePairs(frame), days, keys)[r][j] ==
              Percent(CellRows(frame, days[r], keys[j]), ActiveDayRows(frame, days[r]))
  {
    var pairs := ActivePairs(frame);
    var d, k := days[r], keys[j];
    CellOfRows(pairs, days, keys, r, j);
    CrosstabCounts(frame, d, k);
    var c, t := Count(pairs, d, k), DayTotal(pairs, d);
    assert c == CellRows(frame, d, k) && t == ActiveDayRows(frame, d) && t > 0;
    assert PercentRows(pairs, days, keys)[r][j] == Percent(c, t);
  }

  /** Every cell (r, j) of a table with these day rows and key columns is the
      share, in percent, of the rows of day r with a key other than "IDIOT"
      that carry key j. */
  ghost predicate CellsMatchFrame(frame: seq<Kebap>, days: seq<string>, keys: seq<string>, cells: seq<seq<real>>)
  {
    && |cells| == |days|
    && forall r, j :: 0 <= r < |days| && 0 <= j < |keys| ==>
         |cells[r]| == |keys| && ActiveDayRows(frame, days[r]) > 0 &&
         cells[r][j] == Percent(CellRows(frame, days[r], keys[j]), ActiveDayRows(frame, days[r]))
  }

  lemma CellsAgainstFrame(frame: seq<Kebap>, days: seq<string>, keys: seq<string>)
    requires forall i :: 0 <= i < |days| ==> DayTotal(ActivePairs(frame), days[i]) > 0
    requires "IDIOT" !in keys
    ensures CellsMatchFrame(frame, days, keys, PercentRows(ActivePairs(frame), days, keys))
  {
    PercentRowsShape(ActivePairs(frame), days, keys);
    forall r, j | 0 <= r < |days| && 0 <= j < |keys|
      ensures |PercentRows(ActivePairs(frame), days, keys)[r]| == |keys| && ActiveDayRows(frame, days[r]) > 0
      ensures PercentRows(ActivePairs(frame), days, keys)[r][j] == Percent(CellRows(frame, days[r], keys[j]), ActiveDayRows(frame, days[r]))
    {
      CellAgainstFrame(frame, days, keys, r, j);
    }
  }

  /** Each cell of the table is the share, in percent, of the day's rows with
      a key other than "IDIOT" that carry the column's key. */
  lemma TableCells(frame: seq<Kebap>)
    ensures CellsMatchFrame(frame, PercentTable(frame).days, PercentTable(frame).keys, PercentTable(frame).cells)
  {
    var pairs := ActivePairs(frame);
    DaysWithDataHaveData(GermanDays, pairs);
    NoIdiotColumn(frame);
    CellsAgainstFrame(frame, DaysWithData(GermanDays, pairs), Columns(pairs));
  }

  /** Every row with both a weekday and a key gives its pair, and every pair comes from such a row. */
  lemma {:induction false} CrossPairsMembers(rows: seq<Kebap>)
    ensures forall x :: x in CrossPairs(rows) <==> exists k :: k in rows && k.weekday == Some(x.0) && k.preparerKey == Some(x.1)
  {
    if rows != [] {
      CrossPairsMembers(rows[1..]);
      assert forall k :: k in rows <==> k == rows[0] || k in rows[1..] by {
        assert rows == [rows[0]] + rows[1..];
      }
    }
  }

  /** The keys other than "IDIOT" that some row with a weekday carries, and no others. */
  ghost predicate KeysMatchFrame(frame: seq<Kebap>, keys: seq<string>)
  {
    forall c :: c in keys <==> c != "IDIOT" && exists k :: k in frame && k.weekday.Some? && k.preparerKey == Some(c)
  }

  lemma ColumnComesFromRow(frame: seq<Kebap>, c: string)
    requires c in Columns(ActivePairs(frame))
    ensures c != "IDIOT" && exists k :: k in frame && k.weekday.Some? && k.preparerKey == Some(c)
  {
    var active := Active(frame);
    var pairs := CrossPairs(active);
    ColumnsAreTheKeys(pairs);
    CrossPairsMembers(active);
    var i :| 0 <= i < |pairs| && pairs[i].1 == c;
    assert pairs[i] in pairs;
    var k :| k in active && k.weekday == Some(pairs[i].0) && k.preparerKey == Some(c);
    assert multiset(active)[k] > 0;
  }

  lemma RowGivesColumn(frame: seq<Kebap>, k: Kebap)
    requires k in frame && k.weekday.Some? && k.preparerKey.Some? && k.preparerKey.value != "IDIOT"
    ensures k.preparerKey.value in Columns(ActivePairs(frame))
  {
    var active := Active(frame);
    var pairs := CrossPairs(active);
    ColumnsAreTheKeys(pairs);
    CrossPairsMembers(active);
    assert multiset(frame)[k] > 0;
    assert k in active;
    var x := (k.weekday.value, k.preparerKey.value);
    assert x in pairs;
    var i :| 0 <= i < |pairs| && pairs[i] == x;
  }

  lemma ColumnsAgainstFrame(frame: seq<Kebap>)
    ensures KeysMatchFrame(frame, Columns(ActivePairs(frame)))
  {
    var keys := Columns(ActivePairs(frame));
    forall c ensures c in keys <==> c != "IDIOT" && exists k :: k in frame && k.weekday.Some? && k.preparerKey == Some(c) {
      if c in keys {
        ColumnComesFromRow(frame, c);
      }
      if c != "IDIOT" && exists k :: k in frame && k.weekday.Some? && k.preparerKey == Some(c) {
        var k :| k in frame && k.weekday.Some? && k.preparerKey == Some(c);
        RowGivesColumn(frame, k);
      }
    }
  }

  /** The columns of the table are exactly the keys other than "IDIOT" that
      some row with a weekday carries. */
  lemma TableKeys(frame: seq<Kebap>)
    ensures KeysMatchFrame(frame, PercentTable(frame).keys)
  {
    ColumnsAgainstFrame(frame);
  }

  // ---- hourly ranking ----

  /** f"{int(h):02d}:00" */
  function HourLabel(h: nat): (key: string)
    ensures h < 100 ==> |key| == 5 && key[2..] == ":00"
  {
    ZeroPad2(h) + ":00"
  }

  /** An hour of the day gives a five-character key whose first two digits
      read back as the hour, so two hours never share a key. */
  lemma HourLabelReadsBack(h: nat)
    requires h < 100
    ensures |HourLabel(h)| == 5
    ensures HourLabel(h)[2..] == ":00"
    ensures DigitsValue(HourLabel(h)[..2]) == h
  {
    assert HourLabel(h)[..2] == ZeroPad2(h);
  }

  lemma HourLabelInjective(h1: nat, h2: nat)
    requires h1 < 100 && h2 < 100
    requires HourLabel(h1) == HourLabel(h2)
    ensures h1 == h2
  {
    HourLabelReadsBack(h1);
    HourLabelReadsBack(h2);
  }
}
