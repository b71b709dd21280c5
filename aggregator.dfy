/**
 * The summary figures the busan.py dashboard computes from the loaded
 * table: the latest year and its rows, that year's and the previous year's
 * total volume, the growth rate, the top port, the per-year totals and the
 * cargo-type breakdown.  The table is a sequence of records, one per row,
 * in file order; sums are exact (real arithmetic, no rounding).
 */
module Aggregator {
  import Loader

  /** One row of the table: `년도` (year), `항구분` (port) and the seven
      volume columns in tonnes. */
  datatype Record = Record(
    year: int,
    port: string,
    total: real,         // 총계
    overseas: real,      // 외항소계
    overseasIn: real,    // 외항입항
    overseasOut: real,   // 외항출항
    transshipIn: real,   // 외항입항환적
    transshipOut: real,  // 외항출항환적
    coastal: real)       // 내항연안화물

  datatype Field = Total | Overseas | OverseasIn | OverseasOut | TransshipIn | TransshipOut | Coastal

  /** The volume fields, in the loader's order of target columns. */
  const Fields: seq<Field> := [Total, Overseas, OverseasIn, OverseasOut, TransshipIn, TransshipOut, Coastal]

  function ColumnName(f: Field): string {
    match f
    case Total => "총계"
    case Overseas => "외항소계"
    case OverseasIn => "외항입항"
    case OverseasOut => "외항출항"
    case TransshipIn => "외항입항환적"
    case TransshipOut => "외항출항환적"
    case Coastal => "내항연안화물"
  }

  /** The name of the field's derived column, `<col>_만톤`. */
  function DerivedName(f: Field): string {
    ColumnName(f) + Loader.Suffix
  }

  function Volume(r: Record, f: Field): real {
    match f
    case Total => r.total
    case Overseas => r.overseas
    case OverseasIn => r.overseasIn
    case OverseasOut => r.overseasOut
    case TransshipIn => r.transshipIn
    case TransshipOut => r.transshipOut
    case Coastal => r.coastal
  }

  /** The row's cell in the derived column `<col>_만톤`. */
  function InTons(r: Record, f: Field): real {
    Volume(r, f) / Loader.Scale
  }

  // ---------------------------------------------------------------------
  // Latest year and its rows

  /** `df['년도'].max()` */
  function MaxYear(rows: seq<Record>): (m: int)
    requires |rows| > 0
    ensures forall i :: 0 <= i < |rows| ==> rows[i].year <= m
    ensures exists i :: 0 <= i < |rows| && rows[i].year == m
  {
    if |rows| == 1 then rows[0].year
    else
      var m' := MaxYear(rows[1..]);
      assert forall i :: 1 <= i < |rows| ==> rows[i] == rows[1..][i - 1];
      if rows[0].year >= m' then rows[0].year else m'
  }

  /** `df[df['년도'] == y]`: the rows of year `y`, each as often as the table
      has it (YearRowsCount), and no other rows. */
  function YearRows(rows: seq<Record>, y: int): (r: seq<Record>)
    ensures |r| <= |rows|
    ensures forall i :: 0 <= i < |r| ==> r[i].year == y
  {
    if rows == [] then []
    else
      (if rows[0].year == y then [rows[0]] else []) + YearRows(rows[1..], y)
  }

  /** `frame['<col>_만톤'].sum()`: 0 on no rows. */
  function Sum(rows: seq<Record>, f: Field): real {
    if rows == [] then 0.0 else InTons(rows[0], f) + Sum(rows[1..], f)
  }

  /** `df[df['년도'] == y]['총계_만톤'].sum()`: the total of year `y`, which
      is the masked sum of the whole table. */
  function YearTotal(rows: seq<Record>, y: int): (t: real)
    ensures t == SumWhere(rows, y, Total)
  {
    SumOfYearRows(rows, y, Total);
    Sum(YearRows(rows, y), Total)
  }

  /** Reference definition of a filtered sum: every row contributes its
      value if it is of year `y`, and nothing otherwise. */
  function SumWhere(rows: seq<Record>, y: int, f: Field): real {
    if rows == [] then 0.0
    else (if rows[0].year == y then InTons(rows[0], f) else 0.0) + SumWhere(rows[1..], y, f)
  }

  // ---------------------------------------------------------------------
  // Growth rate and the delta badge

  /** `(delta/prev_val*100) if prev_val != 0 else 0` */
  function GrowthRate(delta: real, prev: real): (g: real)
    ensures prev != 0.0 ==> g * prev == delta * 100.0
    ensures prev == 0.0 ==> g == 0.0
  {
    if prev != 0.0 then delta / prev * 100.0 else 0.0
  }

  datatype Trend = Up | Down

  /** The arrow shown before the delta. */
  function Arrow(t: Trend): string {
    match t
    case Up => "▲"
    case Down => "▼"
  }

  /** The CSS class of the delta line. */
  function CssClass(t: Trend): string {
    match t
    case Up => "delta-up"
    case Down => "delta-down"
  }

  /** What the delta line shows: a direction and `abs(delta)`. */
  datatype Badge = Badge(trend: Trend, magnitude: real)

  function DeltaBadge(delta: real): (b: Badge)
    ensures b.magnitude >= 0.0
    ensures b.trend == Up <==> delta >= 0.0
  {
    if delta >= 0.0 then Badge(Up, delta) else Badge(Down, -delta)
  }

  /** The signed value a badge stands for. */
  function Signed(b: Badge): real {
    if b.trend == Up then b.magnitude else -b.magnitude
  }

  // ---------------------------------------------------------------------
  // Top port

  /** `frame['총계_만톤'].idxmax()` as a position: the first row whose total
      is at least every row's total. */
  function TopIndex(rows: seq<Record>): (k: nat)
    requires |rows| > 0
    ensures k < |rows|
    ensures forall j :: 0 <= j < |rows| ==> InTons(rows[j], Total) <= InTons(rows[k], Total)
    ensures forall j :: 0 <= j < k ==> InTons(rows[j], Total) < InTons(rows[k], Total)
  {
    if |rows| == 1 then 0
    else
      var n := |rows| - 1;
      var k := TopIndex(rows[..n]);
      assert forall j :: 0 <= j < n ==> rows[..n][j] == rows[j];
      if InTons(rows[n], Total) > InTons(rows[k], Total) then n else k
  }

  /** `latest_df.loc[latest_df['총계_만톤'].idxmax(), '항구분']` */
  function TopPort(rows: seq<Record>): string
    requires |rows| > 0
  {
    rows[TopIndex(rows)].port
  }

  /** `top_port` for the rows of year `y`: the port of the first row of that
      year, in table order, with the largest total. */
  function TopPortOfYear(rows: seq<Record>, y: int): (name: string)
    requires exists i :: 0 <= i < |rows| && rows[i].year == y
    ensures exists p :: 0 <= p < |rows| && FirstTopOfYear(rows, y, p) && rows[p].port == name
  {
    var latest := YearRows(rows, y);
    assert |latest| > 0 by {
      var i :| 0 <= i < |rows| && rows[i].year == y;
      assert rows[i] in rows;
      YearRowsMembers(rows, y);
    }
    TopOfYearRows(rows, y);
    TopPort(latest)
  }

  // ---------------------------------------------------------------------
  // The four metric cards

  datatype Summary = Summary(
    latestYear: int,
    totalVal: real,
    prevVal: real,
    delta: real,
    growthRate: real,
    topPort: string)

  /** The statements that compute the metric cards. */
  function Summarize(rows: seq<Record>): (s: Summary)
    requires |rows| > 0
    ensures forall i :: 0 <= i < |rows| ==> rows[i].year <= s.latestYear
    ensures exists i :: 0 <= i < |rows| && rows[i].year == s.latestYear
    ensures s.totalVal == SumWhere(rows, s.latestYear, Total)
    ensures s.prevVal == SumWhere(rows, s.latestYear - 1, Total)
    ensures s.delta == s.totalVal - s.prevVal
    ensures s.growthRate == GrowthRate(s.delta, s.prevVal)
    ensures exists p :: 0 <= p < |rows| && FirstTopOfYear(rows, s.latestYear, p) && rows[p].port == s.topPort
  {
    var y := MaxYear(rows);
    var total := YearTotal(rows, y);
    var prev := YearTotal(rows, y - 1);
    Summary(y, total, prev, total - prev, GrowthRate(total - prev, prev), TopPortOfYear(rows, y))
  }

  /** Row `p` is of year `y`, its total is at least that of every row of
      year `y`, and strictly more than that of every earlier row of year `y`. */
  ghost predicate FirstTopOfYear(rows: seq<Record>, y: int, p: nat) {
    && p < |rows|
    && rows[p].year == y
    && (forall j :: 0 <= j < |rows| && rows[j].year == y ==> InTons(rows[j], Total) <= InTons(rows[p], Total))
    && (forall j :: 0 <= j < p && rows[j].year == y ==> InTons(rows[j], Total) < InTons(rows[p], Total))
  }

  // ---------------------------------------------------------------------
  // Per-year totals

  predicate Increasing(ys: seq<int>) {
    forall a, b :: 0 <= a < b < |ys| ==> ys[a] < ys[b]
  }

  function InsertYear(y: int, ys: seq<int>): (r: seq<int>)
    requires Increasing(ys)
    ensures Increasing(r)
    ensures forall z :: z in r <==> z == y || z in ys
  {
    if ys == [] then [y]
    else if y < ys[0] then [y] + ys
    else if y == ys[0] then ys
    else
      var rest := InsertYear(y, ys[1..]);
      assert forall z :: z in ys <==> z == ys[0] || z in ys[1..];
      assert forall k :: 0 <= k < |rest| ==> ys[0] < rest[k] by {
        forall k | 0 <= k < |rest| ensures ys[0] < rest[k] {
          assert rest[k] in rest;
          if rest[k] != y {
            var j :| 0 <= j < |ys[1..]| && ys[1..][j] == rest[k];
            assert ys[j + 1] == rest[k];
          }
        }
      }
      [ys[0]] + rest
  }

  /** The group keys of `groupby('년도')`: each year of the table once, in
      ascending order. */
  function Years(rows: seq<Record>): (ys: seq<int>)
    ensures Increasing(ys)
    ensures forall z :: z in ys <==> exists i :: 0 <= i < |rows| && rows[i].year == z
  {
    if rows == [] then []
    else
      assert forall i :: 1 <= i < |rows| ==> rows[i] == rows[1..][i - 1];
      InsertYear(rows[0].year, Years(rows[1..]))
  }

  function TotalsFor(rows: seq<Record>, ys: seq<int>): (r: seq<(int, real)>)
    ensures |r| == |ys|
    ensures forall k :: 0 <= k < |ys| ==> r[k].0 == ys[k]
  {
    if ys == [] then []
    else [(ys[0], Sum(YearRows(rows, ys[0]), Total))] + TotalsFor(rows, ys[1..])
  }

  /** `df.groupby('년도')['총계_만톤'].sum().reset_index()` */
  function YearlyTotals(rows: seq<Record>): seq<(int, real)> {
    TotalsFor(rows, Years(rows))
  }

  // ---------------------------------------------------------------------
  // Lemmas

  /** The record's fields are the loader's seven target columns, in order. */
  lemma FieldsAreTargets()
    ensures |Fields| == |Loader.TargetCols|
    ensures forall k :: 0 <= k < |Fields| ==> ColumnName(Fields[k]) == Loader.TargetCols[k]
  {
  }

  /** The filter keeps each row of year `y` and no other row. */
  lemma {:induction false} YearRowsMembers(rows: seq<Record>, y: int)
    ensures forall x :: x in YearRows(rows, y) <==> x in rows && x.year == y
  {
    if rows != [] {
      YearRowsMembers(rows[1..], y);
      assert forall x :: x in rows <==> x == rows[0] || x in rows[1..];
    }
  }

  /** The filter keeps each row of year `y` as often as the table has it. */
  lemma {:induction false} YearRowsCount(rows: seq<Record>, y: int)
    ensures forall x :: multiset(YearRows(rows, y))[x] == if x.year == y then multiset(rows)[x] else 0
  {
    if rows != [] {
      YearRowsCount(rows[1..], y);
      assert rows == [rows[0]] + rows[1..];
      assert multiset(rows) == multiset([rows[0]]) + multiset(rows[1..]);
      var head := if rows[0].year == y then [rows[0]] else [];
      assert multiset(YearRows(rows, y)) == multiset(head) + multiset(YearRows(rows[1..], y));
    }
  }

  /** Filtering then summing is the masked sum. */
  lemma {:induction false} SumOfYearRows(rows: seq<Record>, y: int, f: Field)
    ensures Sum(YearRows(rows, y), f) == SumWhere(rows, y, f)
  {
    if rows != [] {
      SumOfYearRows(rows[1..], y, f);
      SumAppend(if rows[0].year == y then [rows[0]] else [], YearRows(rows[1..], y), f);
    }
  }

  lemma {:induction false} SumAppend(a: seq<Record>, b: seq<Record>, f: Field)
    ensures Sum(a + b, f) == Sum(a, f) + Sum(b, f)
  {
    if a != [] {
      assert (a + b)[1..] == a[1..] + b;
      SumAppend(a[1..], b, f);
    } else {
      assert a + b == b;
    }
  }

  /** A year without rows sums to 0, as `prev_val` does for the first year. */
  lemma {:induction false} SumWhereAbsent(rows: seq<Record>, y: int, f: Field)
    requires forall i :: 0 <= i < |rows| ==> rows[i].year != y
    ensures SumWhere(rows, y, f) == 0.0
  {
    if rows != [] {
      SumWhereAbsent(rows[1..], y, f);
    }
  }

  /** The filter keeps the table's order: it distributes over concatenation
      (and keeps or drops each single row by its year). */
  lemma {:induction false} YearRowsAppend(a: seq<Record>, b: seq<Record>, y: int)
    ensures YearRows(a + b, y) == YearRows(a, y) + YearRows(b, y)
  {
    if a != [] {
      assert (a + b)[1..] == a[1..] + b;
      YearRowsAppend(a[1..], b, y);
    } else {
      assert a + b == b;
    }
  }

  /** Where the k-th row of year `y` sits in the table. */
  lemma {:induction false} YearRowPosition(rows: seq<Record>, y: int, k: nat) returns (p: nat)
    requires k < |YearRows(rows, y)|
    ensures p < |rows| && rows[p] == YearRows(rows, y)[k]
    ensures YearRows(rows[..p], y) == YearRows(rows, y)[..k]
  {
    var head := if rows[0].year == y then [rows[0]] else [];
    var rest := YearRows(rows[1..], y);
    assert YearRows(rows, y) == head + rest;
    if head != [] && k == 0 {
      p := 0;
      assert rows[..p] == [];
    } else {
      var k' := k - |head|;
      var q := YearRowPosition(rows[1..], y, k');
      p := q + 1;
      assert rows[p] == rest[k'];
      assert YearRows(rows[..p], y) == head + rest[..k'] by {
        TakeCons(rows, q);
        YearRowsAppend([rows[0]], rows[1..][..q], y);
        assert YearRows([rows[0]], y) == head + YearRows([], y);
      }
      assert (head + rest)[..k] == head + rest[..k'];
    }
  }

  lemma TakeCons<T>(s: seq<T>, q: nat)
    requires q < |s|
    ensures s[..q + 1] == [s[0]] + s[1..][..q]
  {
  }

  /** The top port's row, located in the whole table: the first row of the
      latest year, in table order, with the largest total. */
  lemma TopOfYearRows(rows: seq<Record>, y: int)
    requires |YearRows(rows, y)| > 0
    ensures exists p :: 0 <= p < |rows| && rows[p] == YearRows(rows, y)[TopIndex(YearRows(rows, y))] && FirstTopOfYear(rows, y, p)
  {
    var ys := YearRows(rows, y);
    var k := TopIndex(ys);
    var p := YearRowPosition(rows, y, k);
    YearRowsMembers(rows, y);
    YearRowsMembers(rows[..p], y);
    forall j | 0 <= j < |rows| && rows[j].year == y
      ensures InTons(rows[j], Total) <= InTons(rows[p], Total)
    {
      assert rows[j] in rows;
      assert rows[j] in ys;
    }
    forall j | 0 <= j < p && rows[j].year == y
      ensures InTons(rows[j], Total) < InTons(rows[p], Total)
    {
      var before := rows[..p];
      assert before[j] == rows[j];
      assert rows[j] in before;
      assert rows[j] in YearRows(before, y);
      assert rows[j] in ys[..k];
      var m :| 0 <= m < k && ys[..k][m] == rows[j];
    }
    assert FirstTopOfYear(rows, y, p);
  }

  /** Up when the latest year did not fall; the badge gives back the delta. */
  lemma BadgeRoundTrip(delta: real)
    ensures Signed(DeltaBadge(delta)) == delta
    ensures Arrow(DeltaBadge(delta).trend) == (if delta >= 0.0 then "▲" else "▼")
    ensures CssClass(DeltaBadge(delta).trend) == (if delta >= 0.0 then "delta-up" else "delta-down")
    ensures DeltaBadge(delta).magnitude == (if delta >= 0.0 then delta else -delta)
  {
  }

  /** Against a previous year with positive total, the rate is non-negative
      exactly when the total did not fall, and 0 exactly when it stayed the
      same. */
  lemma GrowthSign(total: real, prev: real)
    requires prev > 0.0
    ensures GrowthRate(total - prev, prev) >= 0.0 <==> total >= prev
    ensures GrowthRate(total - prev, prev) == 0.0 <==> total == prev
  {
    var g := GrowthRate(total - prev, prev);
    assert g * prev == (total - prev) * 100.0;
    if g >= 0.0 {
      assert g * prev >= 0.0;
    } else {
      assert g * prev < 0.0;
    }
  }

  // Per-year totals

  /** Sum over `ys` of each year's masked total. */
  function SumOver(rows: seq<Record>, ys: seq<int>, f: Field): real {
    if ys == [] then 0.0 else SumWhere(rows, ys[0], f) + SumOver(rows, ys[1..], f)
  }

  /** The value of one row summed over `ys`: its value once per occurrence
      of its year. */
  function Indicator(r: Record, ys: seq<int>, f: Field): real {
    if ys == [] then 0.0 else (if r.year == ys[0] then InTons(r, f) else 0.0) + Indicator(r, ys[1..], f)
  }

  lemma {:induction false} IndicatorOnce(r: Record, ys: seq<int>, f: Field)
    requires Increasing(ys)
    ensures Indicator(r, ys, f) == if r.year in ys then InTons(r, f) else 0.0
  {
    if ys != [] {
      assert forall z :: z in ys <==> z == ys[0] || z in ys[1..];
      IndicatorOnce(r, ys[1..], f);
      if r.year == ys[0] {
        assert r.year !in ys[1..];
      }
    }
  }

  lemma {:induction false} SumOverCons(rows: seq<Record>, ys: seq<int>, f: Field)
    requires rows != []
    ensures SumOver(rows, ys, f) == Indicator(rows[0], ys, f) + SumOver(rows[1..], ys, f)
  {
    if ys != [] {
      SumOverCons(rows, ys[1..], f);
    }
  }

  /** Grouping by year over a list of distinct years that holds every row's
      year loses and duplicates nothing. */
  lemma {:induction false} SumOverAllYears(rows: seq<Record>, ys: seq<int>, f: Field)
    requires Increasing(ys)
    requires forall i :: 0 <= i < |rows| ==> rows[i].year in ys
    ensures SumOver(rows, ys, f) == Sum(rows, f)
  {
    if rows != [] {
      SumOverCons(rows, ys, f);
      IndicatorOnce(rows[0], ys, f);
      assert forall i :: 0 <= i < |rows| - 1 ==> rows[1..][i] == rows[i + 1];
      SumOverAllYears(rows[1..], ys, f);
    } else {
      SumOverNoRows(ys, f);
    }
  }

  lemma {:induction false} SumOverNoRows(ys: seq<int>, f: Field)
    ensures SumOver([], ys, f) == 0.0
  {
    if ys != [] {
      SumOverNoRows(ys[1..], f);
    }
  }

  /** The keys of a sequence of pairs, in order. */
  function Keys<K, V>(s: seq<(K, V)>): seq<K> {
    seq(|s|, k requires 0 <= k < |s| => s[k].0)
  }

  function SumValues<K>(s: seq<(K, real)>): real {
    if s == [] then 0.0 else s[0].1 + SumValues(s[1..])
  }

  lemma {:induction false} ValuesOfTotals(rows: seq<Record>, ys: seq<int>)
    ensures SumValues(TotalsFor(rows, ys)) == SumOver(rows, ys, Total)
  {
    if ys != [] {
      SumOfYearRows(rows, ys[0], Total);
      ValuesOfTotals(rows, ys[1..]);
    }
  }

  /** The per-year totals are keyed by each year of the table once, in
      ascending order; each is that year's masked total, and together they
      add up to the total over the whole table. */
  lemma YearlyTotalsFacts(rows: seq<Record>)
    ensures Increasing(Keys(YearlyTotals(rows)))
    ensures forall z :: z in Keys(YearlyTotals(rows)) <==> exists i :: 0 <= i < |rows| && rows[i].year == z
    ensures forall k :: 0 <= k < |YearlyTotals(rows)| ==> YearlyTotals(rows)[k].1 == SumWhere(rows, YearlyTotals(rows)[k].0, Total)
    ensures SumValues(YearlyTotals(rows)) == Sum(rows, Total)
  {
    var ys := Years(rows);
    var yt := YearlyTotals(rows);
    assert Keys(yt) == ys;
    forall k | 0 <= k < |yt| ensures yt[k].1 == SumWhere(rows, ys[k], Total) {
      TotalsAt(rows, ys, k);
      SumOfYearRows(rows, ys[k], Total);
    }
    ValuesOfTotals(rows, ys);
    SumOverAllYears(rows, ys, Total);
  }

  lemma {:induction false} TotalsAt(rows: seq<Record>, ys: seq<int>, k: nat)
    requires k < |ys|
    ensures TotalsFor(rows, ys)[k].1 == Sum(YearRows(rows, ys[k]), Total)
  {
    if k > 0 {
      TotalsAt(rows, ys[1..], k - 1);
    }
  }

  /** The worked example: two ports over 2022 and 2023. */
  lemma Example()
    ensures var rows := [
              Record(2023, "북항", 500000.0, 0.0, 0.0, 0.0, 0.0, 0.0, 0.0),
              Record(2023, "신항", 800000.0, 0.0, 0.0, 0.0, 0.0, 0.0, 0.0),
              Record(2022, "북항", 400000.0, 0.0, 0.0, 0.0, 0.0, 0.0, 0.0),
              Record(2022, "신항", 700000.0, 0.0, 0.0, 0.0, 0.0, 0.0, 0.0)];
            Summarize(rows) == Summary(2023, 130.0, 110.0, 20.0, 200.0 / 11.0, "신항")
  {
  }
}
