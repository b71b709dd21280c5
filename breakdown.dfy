/**
 * The cargo-type breakdown chart of busan.py: the five cargo types of
 * `comp_map` summed over the latest year's rows, sorted ascending by value
 * and relabelled with their display names.
 */
module Breakdown {
  import opened Aggregator

  /** The cargo types of `comp_map`, in its order. */
  const Components: seq<Field> := [OverseasIn, OverseasOut, TransshipIn, TransshipOut, Coastal]

  /** `list(comp_map.keys())` */
  const CompKeys: seq<string> := ["외항입항_만톤", "외항출항_만톤", "외항입항환적_만톤", "외항출항환적_만톤", "내항연안화물_만톤"]

  /** `list(comp_map.values())` */
  const Labels: seq<string> := ["외항 입항", "외항 출항", "입항 환적", "출항 환적", "내항/연안"]

  /** `comp_map`: derived column name to display label. */
  const CompMap: map<string, string> := map[
    "외항입항_만톤" := "외항 입항",
    "외항출항_만톤" := "외항 출항",
    "외항입항환적_만톤" := "입항 환적",
    "외항출항환적_만톤" := "출항 환적",
    "내항연안화물_만톤" := "내항/연안"]

  /** `latest_df[list(comp_map.keys())].sum()`: one (column, sum) pair per key. */
  function ComponentTotals(rows: seq<Record>): (r: seq<(string, real)>)
    ensures |r| == 5
  {
    seq(5, k requires 0 <= k < 5 => (CompKeys[k], Sum(rows, Components[k])))
  }

  predicate Ascending<K>(s: seq<(K, real)>) {
    forall a, b :: 0 <= a < b < |s| ==> s[a].1 <= s[b].1
  }

  /** Puts `p` before the first element whose value is not smaller. */
  function Insert<K>(p: (K, real), s: seq<(K, real)>): (r: seq<(K, real)>)
    ensures |r| == |s| + 1
  {
    if s == [] || p.1 <= s[0].1 then [p] + s else [s[0]] + Insert(p, s[1..])
  }

  /** `sort_values()`: ascending by value, a permutation of its input. */
  function SortByValue<K>(s: seq<(K, real)>): (r: seq<(K, real)>)
    ensures |r| == |s|
    ensures Ascending(r)
    ensures multiset(r) == multiset(s)
  {
    if s == [] then []
    else
      var rest := SortByValue(s[1..]);
      InsertSorted(s[0], rest);
      assert s == [s[0]] + s[1..];
      Insert(s[0], rest)
  }

  /** Inserting into an ascending sequence keeps it ascending and adds
      exactly the new element. */
  lemma {:induction false} InsertSorted<K>(p: (K, real), s: seq<(K, real)>)
    requires Ascending(s)
    ensures Insert(p, s)[0] == p || Insert(p, s)[0] == s[0]
    ensures Ascending(Insert(p, s))
    ensures multiset(Insert(p, s)) == multiset(s) + multiset{p}
  {
    if s != [] && p.1 > s[0].1 {
      InsertSorted(p, s[1..]);
      assert s == [s[0]] + s[1..];
      assert s[0].1 <= Insert(p, s[1..])[0].1;
    }
  }

  predicate KeysInMap(m: map<string, string>, s: seq<(string, real)>) {
    forall k :: 0 <= k < |s| ==> s[k].0 in m
  }

  /** `[comp_map[idx] for idx in comp_data.index]` as the new index: each
      pair keeps its value and place and gets its key's label. */
  function Relabel(m: map<string, string>, s: seq<(string, real)>): (r: seq<(string, real)>)
    requires KeysInMap(m, s)
    ensures |r| == |s|
    ensures forall k :: 0 <= k < |s| ==> r[k] == (m[s[k].0], s[k].1)
  {
    if s == [] then [] else [(m[s[0].0], s[0].1)] + Relabel(m, s[1..])
  }

  /** The breakdown chart's data: label and value per cargo type, ascending
      by value. */
  function Chart(rows: seq<Record>): seq<(string, real)> {
    var sorted := SortByValue(ComponentTotals(rows));
    CompMapFacts();
    KeysInMapSort(CompMap, ComponentTotals(rows));
    Relabel(CompMap, sorted)
  }

  /** Reference definition: each label with the sum of its cargo type. */
  function LabelledTotals(rows: seq<Record>): seq<(string, real)> {
    seq(5, k requires 0 <= k < 5 => (Labels[k], Sum(rows, Components[k])))
  }

  // ---------------------------------------------------------------------
  // Lemmas

  /** `comp_map` maps the derived column of each cargo type to its label,
      and has no other key. */
  lemma CompMapFacts()
    ensures forall k :: 0 <= k < 5 ==> CompKeys[k] == DerivedName(Components[k])
    ensures forall k :: 0 <= k < 5 ==> CompKeys[k] in CompMap && CompMap[CompKeys[k]] == Labels[k]
    ensures CompMap.Keys == set k | 0 <= k < 5 :: CompKeys[k]
    ensures CompMap.Values == set k | 0 <= k < 5 :: Labels[k]
  {
    assert DerivedName(OverseasIn) == "외항입항" + "_만톤";
    assert DerivedName(OverseasOut) == "외항출항" + "_만톤";
    assert DerivedName(TransshipIn) == "외항입항환적" + "_만톤";
    assert DerivedName(TransshipOut) == "외항출항환적" + "_만톤";
    assert DerivedName(Coastal) == "내항연안화물" + "_만톤";
    assert CompMap.Keys == {CompKeys[0], CompKeys[1], CompKeys[2], CompKeys[3], CompKeys[4]};
    assert CompMap.Values == {Labels[0], Labels[1], Labels[2], Labels[3], Labels[4]};
  }

  lemma KeysInMapSort(m: map<string, string>, s: seq<(string, real)>)
    requires KeysInMap(m, s)
    ensures KeysInMap(m, SortByValue(s))
  {
    var r := SortByValue(s);
    forall k | 0 <= k < |r| ensures r[k].0 in m {
      assert r[k] in multiset(s);
    }
  }

  lemma RelabelCons(m: map<string, string>, p: (string, real), s: seq<(string, real)>)
    requires p.0 in m && KeysInMap(m, s)
    ensures KeysInMap(m, [p] + s)
    ensures Relabel(m, [p] + s) == [(m[p.0], p.1)] + Relabel(m, s)
  {
    assert ([p] + s)[1..] == s;
  }

  /** Relabelling keeps the order of the values. */
  lemma RelabelAscending(m: map<string, string>, s: seq<(string, real)>)
    requires KeysInMap(m, s) && Ascending(s)
    ensures Ascending(Relabel(m, s))
  {
  }

  lemma {:induction false} RelabelInsert(m: map<string, string>, p: (string, real), s: seq<(string, real)>)
    requires p.0 in m && KeysInMap(m, s) && Ascending(s)
    ensures Ascending(Relabel(m, s))
    ensures KeysInMap(m, Insert(p, s))
    ensures Relabel(m, Insert(p, s)) == Insert((m[p.0], p.1), Relabel(m, s))
  {
    RelabelAscending(m, s);
    KeysInMapInsert(m, p, s);
    if s == [] || p.1 <= s[0].1 {
      RelabelCons(m, p, s);
    } else {
      RelabelInsert(m, p, s[1..]);
      RelabelInsertLater(m, p, s);
    }
  }

  /** The step of `RelabelInsert` where `p` goes after the first element. */
  lemma RelabelInsertLater(m: map<string, string>, p: (string, real), s: seq<(string, real)>)
    requires p.0 in m && KeysInMap(m, s) && Ascending(s)
    requires s != [] && p.1 > s[0].1
    requires KeysInMap(m, Insert(p, s[1..])) && Ascending(Relabel(m, s[1..])) && Ascending(Relabel(m, s))
    requires Relabel(m, Insert(p, s[1..])) == Insert((m[p.0], p.1), Relabel(m, s[1..]))
    ensures KeysInMap(m, Insert(p, s))
    ensures Relabel(m, Insert(p, s)) == Insert((m[p.0], p.1), Relabel(m, s))
  {
    var q := (m[p.0], p.1);
    var ins := Insert(p, s[1..]);
    assert Insert(p, s) == [s[0]] + ins;
    RelabelCons(m, s[0], ins);
    var r := Relabel(m, s);
    assert r == [(m[s[0].0], s[0].1)] + Relabel(m, s[1..]);
    assert r[1..] == Relabel(m, s[1..]);
    assert Insert(q, r) == [r[0]] + Insert(q, r[1..]);
  }

  lemma KeysInMapInsert(m: map<string, string>, p: (string, real), s: seq<(string, real)>)
    requires p.0 in m && KeysInMap(m, s) && Ascending(s)
    ensures KeysInMap(m, Insert(p, s))
  {
    InsertSorted(p, s);
    var ins := Insert(p, s);
    forall k | 0 <= k < |ins| ensures ins[k].0 in m {
      assert ins[k] in multiset(s) + multiset{p};
    }
  }

  /** Sorting and relabelling commute: relabelling touches no value. */
  lemma {:induction false} RelabelSort(m: map<string, string>, s: seq<(string, real)>)
    requires KeysInMap(m, s)
    ensures KeysInMap(m, SortByValue(s))
    ensures Relabel(m, SortByValue(s)) == SortByValue(Relabel(m, s))
  {
    KeysInMapSort(m, s);
    if s != [] {
      assert s == [s[0]] + s[1..];
      RelabelSort(m, s[1..]);
      RelabelInsert(m, s[0], SortByValue(s[1..]));
      assert Relabel(m, s)[1..] == Relabel(m, s[1..]);
    }
  }

  /** The chart has the five labelled sums, each once, ascending by value. */
  lemma ChartFacts(rows: seq<Record>)
    ensures |Chart(rows)| == 5
    ensures Ascending(Chart(rows))
    ensures multiset(Chart(rows)) == multiset(LabelledTotals(rows))
    ensures forall p :: p in Chart(rows) <==> p in LabelledTotals(rows)
  {
    ChartIsSortedTotals(rows);
    var c := Chart(rows);
    var lt := LabelledTotals(rows);
    forall p ensures p in c <==> p in lt {
      assert p in c <==> p in multiset(c);
      assert p in lt <==> p in multiset(lt);
    }
  }

  /** Relabelling the column sums gives the labelled sums, so the chart is
      the labelled sums, sorted. */
  lemma ChartIsSortedTotals(rows: seq<Record>)
    ensures Chart(rows) == SortByValue(LabelledTotals(rows))
  {
    var ct := ComponentTotals(rows);
    RelabelTotals(rows);
    RelabelSort(CompMap, ct);
  }

  /** The chart as the dashboard draws it, on the latest year's rows. */
  function LatestChart(rows: seq<Record>): seq<(string, real)>
    requires |rows| > 0
  {
    Chart(YearRows(rows, MaxYear(rows)))
  }

  /** Reference definition: each label with its cargo type's masked sum
      over year `y`. */
  function YearLabelledTotals(rows: seq<Record>, y: int): seq<(string, real)> {
    seq(5, k requires 0 <= k < 5 => (Labels[k], SumWhere(rows, y, Components[k])))
  }

  /** The drawn chart is the latest year's five labelled sums, sorted
      ascending. */
  lemma LatestChartIsSorted(rows: seq<Record>)
    requires |rows| > 0
    ensures LatestChart(rows) == SortByValue(YearLabelledTotals(rows, MaxYear(rows)))
    ensures Ascending(LatestChart(rows))
    ensures multiset(LatestChart(rows)) == multiset(YearLabelledTotals(rows, MaxYear(rows)))
  {
    var y := MaxYear(rows);
    ChartIsSortedTotals(YearRows(rows, y));
    LabelledOfYear(rows, y);
  }

  lemma LabelledOfYear(rows: seq<Record>, y: int)
    ensures LabelledTotals(YearRows(rows, y)) == YearLabelledTotals(rows, y)
  {
    var lt := LabelledTotals(YearRows(rows, y));
    var yt := YearLabelledTotals(rows, y);
    forall k | 0 <= k < 5 ensures lt[k] == yt[k] {
      SumOfYearRows(rows, y, Components[k]);
    }
  }

  lemma RelabelTotals(rows: seq<Record>)
    ensures KeysInMap(CompMap, ComponentTotals(rows))
    ensures Relabel(CompMap, ComponentTotals(rows)) == LabelledTotals(rows)
  {
    CompMapFacts();
    var ct := ComponentTotals(rows);
    var r := Relabel(CompMap, ct);
    var lt := LabelledTotals(rows);
    forall k | 0 <= k < 5 ensures r[k] == lt[k] {
      assert ct[k].0 == CompKeys[k];
    }
  }

  /** The chart's labels are the values of `comp_map` (see CompMapFacts):
      every bar has one, and every one has a bar. */
  lemma ChartLabels(rows: seq<Record>)
    ensures forall k :: 0 <= k < |Chart(rows)| ==> Chart(rows)[k].0 in Labels
    ensures forall m :: 0 <= m < |Labels| ==> exists k :: 0 <= k < |Chart(rows)| && Chart(rows)[k].0 == Labels[m]
  {
    ChartFacts(rows);
    var c := Chart(rows);
    var lt := LabelledTotals(rows);
    forall k | 0 <= k < |c| ensures c[k].0 in Labels {
      assert c[k] in lt;
      var m :| 0 <= m < 5 && lt[m] == c[k];
      assert c[k].0 == Labels[m];
    }
    forall m | 0 <= m < |Labels| ensures exists k :: 0 <= k < |c| && c[k].0 == Labels[m] {
      assert lt[m] in c;
      var k :| 0 <= k < |c| && c[k] == lt[m];
      assert c[k].0 == Labels[m];
    }
  }

  /** A row whose total is the sum of its five cargo types. */
  predicate Composed(r: Record) {
    r.total == r.overseasIn + r.overseasOut + r.transshipIn + r.transshipOut + r.coastal
  }

  lemma {:induction false} SumComposed(rows: seq<Record>)
    requires forall i :: 0 <= i < |rows| ==> Composed(rows[i])
    ensures Sum(rows, Total) == Sum(rows, OverseasIn) + Sum(rows, OverseasOut) + Sum(rows, TransshipIn)
                                + Sum(rows, TransshipOut) + Sum(rows, Coastal)
  {
    if rows != [] {
      assert forall i :: 0 <= i < |rows| - 1 ==> rows[1..][i] == rows[i + 1];
      SumComposed(rows[1..]);
    }
  }

  lemma {:induction false} SumValuesInsert<K>(p: (K, real), s: seq<(K, real)>)
    ensures SumValues(Insert(p, s)) == p.1 + SumValues(s)
  {
    if s != [] && p.1 > s[0].1 {
      SumValuesInsert(p, s[1..]);
      assert Insert(p, s)[1..] == Insert(p, s[1..]);
    } else {
      assert Insert(p, s)[1..] == s;
    }
  }

  lemma {:induction false} SumValuesSort<K>(s: seq<(K, real)>)
    ensures SumValues(SortByValue(s)) == SumValues(s)
  {
    if s != [] {
      SumValuesSort(s[1..]);
      SumValuesInsert(s[0], SortByValue(s[1..]));
    }
  }

  /** When every row's total is the sum of its five cargo types, the chart
      adds up to the rows' total. */
  lemma ChartAddsUp(rows: seq<Record>)
    requires forall i :: 0 <= i < |rows| ==> Composed(rows[i])
    ensures SumValues(Chart(rows)) == Sum(rows, Total)
  {
    ChartIsSortedTotals(rows);
    var lt := LabelledTotals(rows);
    SumValuesSort(lt);
    SumValuesOfFive(lt);
    SumComposed(rows);
  }

  lemma SumValuesOfFive<K>(s: seq<(K, real)>)
    requires |s| == 5
    ensures SumValues(s) == s[0].1 + s[1].1 + s[2].1 + s[3].1 + s[4].1
  {
    assert SumValues(s[4..]) == s[4].1 by { assert s[4..][1..] == []; }
    assert SumValues(s[3..]) == s[3].1 + SumValues(s[4..]) by { assert s[3..][1..] == s[4..]; }
    assert SumValues(s[2..]) == s[2].1 + SumValues(s[3..]) by { assert s[2..][1..] == s[3..]; }
    assert SumValues(s[1..]) == s[1].1 + SumValues(s[2..]) by { assert s[1..][1..] == s[2..]; }
  }
}
