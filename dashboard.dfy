/**
 * The milk-price dashboard: the state list and the selected state, and the
 * memoised derivation of the KPIs, the evolution series of the selected
 * state and the mean price per state and per year.
 */
module Dashboard {
  import opened Wrappers
  import opened Text
  import opened Calendar
  import opened Sorting
  import opened Prices

  // The state list.

  function Estado(r: PriceRecord): string {
    r.estado
  }

  /** `map(d => d.estado).filter(s => s && s.trim() !== '')`: the named states, repeats kept, in record order. */
  function NamedStates(rs: seq<PriceRecord>): seq<string>
  {
    if |rs| == 0 then []
    else
      var ns := NamedStates(rs[..|rs| - 1]);
      var s := rs[|rs| - 1].estado;
      if HasText(s) then ns + [s] else ns
  }

  lemma {:induction false} NamedStatesMembers(rs: seq<PriceRecord>)
    ensures forall s :: s in NamedStates(rs) <==> exists i :: 0 <= i < |rs| && rs[i].estado == s && HasText(s)
  {
    if |rs| > 0 {
      var init := rs[..|rs| - 1];
      NamedStatesMembers(init);
      forall s ensures s in NamedStates(rs) <==> exists i :: 0 <= i < |rs| && rs[i].estado == s && HasText(s) {
        if s in NamedStates(init) {
          var i :| 0 <= i < |init| && init[i].estado == s && HasText(s);
          assert rs[i] == init[i];
        }
        if exists i :: 0 <= i < |rs| && rs[i].estado == s && HasText(s) {
          var i :| 0 <= i < |rs| && rs[i].estado == s && HasText(s);
          if i < |init| {
            assert init[i] == rs[i];
          }
        }
      }
    }
  }

  /** `allStates`: the distinct named states in the default string order. */
  function AllStates(rs: seq<PriceRecord>): seq<string>
  {
    SortBy(Dedup(NamedStates(rs)), StrLe)
  }

  lemma StrLeTotalPreorder()
    ensures IsTotalPreorder(StrLe)
  {
    forall a, b ensures StrLe(a, b) || StrLe(b, a) {
      StrLeTotal(a, b);
    }
    forall a, b, c | StrLe(a, b) && StrLe(b, c) ensures StrLe(a, c) {
      StrLeTransitive(a, b, c);
    }
  }

  /**
   * The state list holds exactly the states that are non-empty after
   * trimming, each once, in strictly ascending order.
   */
  lemma AllStatesSpec(rs: seq<PriceRecord>)
    ensures var a := AllStates(rs);
            && (forall s :: s in a <==> exists i :: 0 <= i < |rs| && rs[i].estado == s && HasText(s))
            && (forall i, j :: 0 <= i < j < |a| ==> StrLe(a[i], a[j]) && a[i] != a[j])
  {
    var d := Dedup(NamedStates(rs));
    var a := AllStates(rs);
    NamedStatesMembers(rs);
    StrLeTotalPreorder();
    SortBySorted(d, StrLe);
    PermutationDistinct(a, d);
    forall s ensures s in a <==> s in d {
      assert s in a <==> s in multiset(a);
    }
  }

  /** `allStates[0] || ''`: the least named state, or the empty string when there is none. */
  function InitialState(rs: seq<PriceRecord>): (s: string)
    ensures s == "" <==> forall i :: 0 <= i < |rs| ==> !HasText(rs[i].estado)
    ensures s != "" ==> s in AllStates(rs) && forall t :: t in AllStates(rs) ==> StrLe(s, t)
  {
    AllStatesSpec(rs);
    var a := AllStates(rs);
    if |a| > 0 then
      assert a[0] in a;
      assert forall t :: t in a ==> StrLe(a[0], t) by {
        forall t | t in a ensures StrLe(a[0], t) {
          var j :| 0 <= j < |a| && a[j] == t;
          if j == 0 {
            StrLeTotal(t, t);
          }
        }
      }
      a[0]
    else
      ""
  }

  // The latest date.

  /** Every record's date string reads as a valid calendar day. */
  predicate AllDated(rs: seq<PriceRecord>) {
    forall i :: 0 <= i < |rs| ==> IsCalendarDate(rs[i].data)
  }

  function RecordDate(r: PriceRecord): Date
    requires IsCalendarDate(r.data)
  {
    ParseDate(r.data).value
  }

  /**
   * `latestDateTime`: the reduce that keeps the later of the running maximum
   * and each record's day, seeded with the epoch; the day it denotes.
   */
  function LatestDate(rs: seq<PriceRecord>): (d: Date)
    requires AllDated(rs)
    ensures ValidDate(d) && DateLe(Epoch, d)
    ensures forall i :: 0 <= i < |rs| ==> DateLe(RecordDate(rs[i]), d)
    ensures d == Epoch || exists i :: 0 <= i < |rs| && RecordDate(rs[i]) == d
  {
    if |rs| == 0 then Epoch
    else
      var init := rs[..|rs| - 1];
      assert forall i :: 0 <= i < |init| ==> init[i] == rs[i];
      var latest := LatestDate(init);
      var current := RecordDate(rs[|rs| - 1]);
      if DateLt(latest, current) then current else latest
  }

  /** `latestDateString`: the latest day written as zero-padded `dd-mm-yyyy`. */
  function LatestDateString(rs: seq<PriceRecord>): string
    requires AllDated(rs)
  {
    FormatDate(LatestDate(rs))
  }

  /** The latest-date string reads back as the latest day. */
  lemma LatestDateRoundTrip(rs: seq<PriceRecord>)
    requires AllDated(rs)
    ensures ParseDate(LatestDateString(rs)) == Some(LatestDate(rs))
    ensures IsCalendarDate(LatestDateString(rs))
  {
    ParseFormat(LatestDate(rs));
  }

  // The KPIs.

  function DataOf(r: PriceRecord): string {
    r.data
  }

  /** The key that files every record under the one key `true`, so that the keyed filter gives all reported prices. */
  function SingleKey(r: PriceRecord): bool {
    true
  }

  /** The reported prices of the records dated exactly the latest-date string. */
  function LatestPrices(rs: seq<PriceRecord>): seq<real>
    requires AllDated(rs)
  {
    PricesOf(rs, DataOf, LatestDateString(rs))
  }

  /** `allPrices`: every reported price, in record order (the keyed filter under its single key). */
  function AllPrices(rs: seq<PriceRecord>): seq<real>
  {
    PricesOf(rs, SingleKey, true)
  }

  /** `sum / (length || 1)`. */
  function NationalAverage(ps: seq<real>): real
  {
    Sum(ps) / (if |ps| == 0 then 1 else |ps|) as real
  }

  /** `Math.max(...xs)` on a non-empty list. */
  function MaxOf(xs: seq<real>): (m: real)
    requires |xs| > 0
    ensures m in xs && forall x :: x in xs ==> x <= m
  {
    if |xs| == 1 then xs[0]
    else
      var m := MaxOf(xs[..|xs| - 1]);
      assert forall x :: x in xs ==> x in xs[..|xs| - 1] || x == xs[|xs| - 1];
      if xs[|xs| - 1] > m then xs[|xs| - 1] else m
  }

  /** `Math.min(...xs)` on a non-empty list. */
  function MinOf(xs: seq<real>): (m: real)
    requires |xs| > 0
    ensures m in xs && forall x :: x in xs ==> m <= x
  {
    if |xs| == 1 then xs[0]
    else
      var m := MinOf(xs[..|xs| - 1]);
      assert forall x :: x in xs ==> x in xs[..|xs| - 1] || x == xs[|xs| - 1];
      if xs[|xs| - 1] < m then xs[|xs| - 1] else m
  }

  datatype Kpis = Kpis(average: real, max: real, min: real, states: nat)

  function KpisOf(rs: seq<PriceRecord>): Kpis
    requires AllDated(rs)
  {
    var latest := LatestPrices(rs);
    var all := AllPrices(rs);
    Kpis(
      NationalAverage(latest),
      if |all| > 0 then MaxOf(all) else 0.0,
      if |all| > 0 then MinOf(all) else 0.0,
      |latest|)
  }

  /**
   * The extremes: both 0 when no price is reported; otherwise the least and
   * the greatest reported price, with 0 < min <= max.
   */
  lemma KpisExtremes(rs: seq<PriceRecord>)
    requires AllDated(rs)
    ensures var k := KpisOf(rs);
            && ((forall i :: 0 <= i < |rs| ==> !IsReported(rs[i])) ==> k.max == 0.0 && k.min == 0.0)
            && ((exists i :: 0 <= i < |rs| && IsReported(rs[i])) ==> 0.0 < k.min <= k.max)
            && (forall i :: 0 <= i < |rs| && IsReported(rs[i]) ==> k.min <= rs[i].precoLeiteProdutor <= k.max)
            && (k.max != 0.0 ==> exists i :: 0 <= i < |rs| && IsReported(rs[i]) && rs[i].precoLeiteProdutor == k.max)
            && (k.min != 0.0 ==> exists i :: 0 <= i < |rs| && IsReported(rs[i]) && rs[i].precoLeiteProdutor == k.min)
  {
    var all := AllPrices(rs);
    PricesOfWitness(rs, SingleKey, true);
    PricesOfSound(rs, SingleKey, true);
    forall i | 0 <= i < |rs| && IsReported(rs[i]) ensures rs[i].precoLeiteProdutor in all {
      PricesOfComplete(rs, SingleKey, i);
    }
  }

  /**
   * The latest-date KPIs: `states` counts the reported records whose date
   * string is the latest-date string, and the average is 0 exactly when
   * there are none.
   */
  lemma KpisLatest(rs: seq<PriceRecord>)
    requires AllDated(rs)
    ensures KpisOf(rs).states == |FiledIndices(rs, DataOf, LatestDateString(rs))|
    ensures KpisOf(rs).states == 0 ==> KpisOf(rs).average == 0.0
    ensures KpisOf(rs).average == 0.0 <==>
      forall i :: 0 <= i < |rs| && IsReported(rs[i]) ==> rs[i].data != LatestDateString(rs)
  {
    var ps := LatestPrices(rs);
    var latest := LatestDateString(rs);
    PricesOfCount(rs, DataOf, latest);
    PricesOfWitness(rs, DataOf, latest);
    if |ps| > 0 {
      MeanPositive(ps);
    }
  }

  /** When some record is counted, the national average is their mean and lies between the extremes. */
  lemma KpisAverageBetweenExtremes(rs: seq<PriceRecord>)
    requires AllDated(rs)
    requires KpisOf(rs).states > 0
    ensures KpisOf(rs).average == Mean(LatestPrices(rs))
    ensures 0.0 < KpisOf(rs).min <= KpisOf(rs).average <= KpisOf(rs).max
  {
    var k := KpisOf(rs);
    var ps := LatestPrices(rs);
    var latest := LatestDateString(rs);
    KpisExtremes(rs);
    PricesOfSound(rs, DataOf, latest);
    assert ps[0] in ps;
    forall x | x in ps ensures k.min <= x <= k.max {
      var i :| 0 <= i < |rs| && IsReported(rs[i]) && DataOf(rs[i]) == latest && rs[i].precoLeiteProdutor == x;
    }
    MeanBounds(ps, k.min, k.max);
  }

  /**
   * A reported record on the latest day whose date string is written
   * zero-padded is counted, so the national average is then positive.
   */
  lemma LatestPaddedCounted(rs: seq<PriceRecord>, i: int)
    requires AllDated(rs)
    requires 0 <= i < |rs| && IsReported(rs[i])
    requires RecordDate(rs[i]) == LatestDate(rs) && rs[i].data == FormatDate(RecordDate(rs[i]))
    ensures KpisOf(rs).states > 0 && KpisOf(rs).average > 0.0
  {
    PricesOfComplete(rs, DataOf, i);
    KpisLatest(rs);
    KpisAverageBetweenExtremes(rs);
  }

  // The evolution series of the selected state.

  datatype EvolutionPoint = EvolutionPoint(date: Date, name: Label, preco: real)

  /** `filter(d => d.estado === selectedState && d.preco_leite_produtor > 0)`. */
  function StateRecords(rs: seq<PriceRecord>, selected: string): (f: seq<PriceRecord>)
    ensures forall r :: r in f ==> r in rs && r.estado == selected && IsReported(r)
  {
    if |rs| == 0 then []
    else
      var f := StateRecords(rs[..|rs| - 1], selected);
      var r := rs[|rs| - 1];
      assert forall x :: x in rs[..|rs| - 1] ==> x in rs;
      if r.estado == selected && IsReported(r) then f + [r] else f
  }

  /** The positions of `rs` the filter keeps that hold the record `r`. */
  ghost function KeptIndices(rs: seq<PriceRecord>, selected: string, r: PriceRecord): set<int>
  {
    set i | 0 <= i < |rs| && rs[i] == r && r.estado == selected && IsReported(r)
  }

  /** The filter keeps each record as many times as it occurs in `rs` when it is a reported record of the state, and drops it otherwise. */
  lemma {:induction false} StateRecordsCount(rs: seq<PriceRecord>, selected: string, r: PriceRecord)
    ensures multiset(StateRecords(rs, selected))[r] == |KeptIndices(rs, selected, r)|
  {
    if |rs| > 0 {
      var init, n := rs[..|rs| - 1], |rs| - 1;
      StateRecordsCount(init, selected, r);
      KeptIndicesSnoc(rs, selected, r);
      var f := StateRecords(init, selected);
      if rs[n].estado == selected && IsReported(rs[n]) {
        assert StateRecords(rs, selected) == f + [rs[n]];
        assert multiset(f + [rs[n]]) == multiset(f) + multiset{rs[n]};
      } else {
        assert StateRecords(rs, selected) == f;
      }
    }
  }

  lemma KeptIndicesSnoc(rs: seq<PriceRecord>, selected: string, r: PriceRecord)
    requires |rs| > 0
    ensures var n := |rs| - 1;
            KeptIndices(rs, selected, r)
            == KeptIndices(rs[..n], selected, r) + if rs[n] == r && r.estado == selected && IsReported(r) then {n} else {}
  {
    assert forall i :: 0 <= i < |rs| - 1 ==> rs[..|rs| - 1][i] == rs[i];
  }

  /** The selected state's records are its reported records, one entry per record. */
  lemma {:induction false} StateRecordsSpec(rs: seq<PriceRecord>, selected: string)
    ensures forall r :: r in StateRecords(rs, selected) ==> r in rs && r.estado == selected && IsReported(r)
    ensures forall i :: 0 <= i < |rs| && rs[i].estado == selected && IsReported(rs[i]) ==> rs[i] in StateRecords(rs, selected)
    ensures |StateRecords(rs, selected)| == |PricesOf(rs, Estado, selected)|
  {
    if |rs| > 0 {
      var init := rs[..|rs| - 1];
      StateRecordsSpec(init, selected);
      forall i | 0 <= i < |init| ensures init[i] == rs[i] { }
    }
  }

  /** The chart point of a record: its day, the label of its month, its price. */
  function PointOf(r: PriceRecord): EvolutionPoint
    requires IsCalendarDate(r.data)
  {
    EvolutionPoint(RecordDate(r), LabelOf(RecordDate(r)), r.precoLeiteProdutor)
  }

  function Points(f: seq<PriceRecord>): (ps: seq<EvolutionPoint>)
    requires forall r :: r in f ==> IsCalendarDate(r.data)
    ensures |ps| == |f|
  {
    if |f| == 0 then [] else Points(f[..|f| - 1]) + [PointOf(f[|f| - 1])]
  }

  /** The comparator `a.date.getTime() - b.date.getTime()`, read as "at most zero". */
  predicate NoLater(a: EvolutionPoint, b: EvolutionPoint) {
    DateLe(a.date, b.date)
  }

  function EvolutionData(rs: seq<PriceRecord>, selected: string): seq<EvolutionPoint>
    requires AllDated(rs)
  {
    StateRecordsSpec(rs, selected);
    SortBy(Points(StateRecords(rs, selected)), NoLater)
  }

  /** The positions of the reported records of the state whose chart point is `p`. */
  ghost function PointIndices(rs: seq<PriceRecord>, selected: string, p: EvolutionPoint): set<int>
    requires AllDated(rs)
  {
    set i | 0 <= i < |rs| && rs[i].estado == selected && IsReported(rs[i]) && PointOf(rs[i]) == p
  }

  /** The points of the filtered records hold `p` once per reported record of the state whose point it is. */
  lemma {:induction false} StatePointsCount(rs: seq<PriceRecord>, selected: string, p: EvolutionPoint)
    requires AllDated(rs)
    ensures multiset(Points(StateRecords(rs, selected)))[p] == |PointIndices(rs, selected, p)|
  {
    if |rs| == 0 {
      assert PointIndices(rs, selected, p) == {};
    } else {
      var init, n := rs[..|rs| - 1], |rs| - 1;
      PointIndicesSnoc(rs, selected, p);
      StatePointsCount(init, selected, p);
      var f := StateRecords(init, selected);
      var before, after := PointIndices(init, selected, p), PointIndices(rs, selected, p);
      var count := multiset(Points(f))[p];
      assert count == |before|;
      if rs[n].estado == selected && IsReported(rs[n]) {
        assert StateRecords(rs, selected) == f + [rs[n]];
        PointsSnoc(f, rs[n]);
        var m := multiset(Points(f)) + multiset{PointOf(rs[n])};
        assert multiset(Points(StateRecords(rs, selected))) == m;
        if PointOf(rs[n]) == p {
          assert n !in before;
          assert after == before + {n};
          assert |after| == |before| + 1;
          assert m[p] == count + 1;
        } else {
          assert after == before;
          assert m[p] == count;
        }
      } else {
        assert StateRecords(rs, selected) == f;
        assert after == before;
      }
    }
  }

  lemma PointIndicesSnoc(rs: seq<PriceRecord>, selected: string, p: EvolutionPoint)
    requires AllDated(rs) && |rs| > 0
    ensures var n := |rs| - 1;
            AllDated(rs[..n]) && n !in PointIndices(rs[..n], selected, p) &&
            PointIndices(rs, selected, p)
            == PointIndices(rs[..n], selected, p) + if rs[n].estado == selected && IsReported(rs[n]) && PointOf(rs[n]) == p then {n} else {}
  {
    assert forall i :: 0 <= i < |rs| - 1 ==> rs[..|rs| - 1][i] == rs[i];
  }

  lemma PointsSnoc(f: seq<PriceRecord>, r: PriceRecord)
    requires forall x :: x in f ==> IsCalendarDate(x.data)
    requires IsCalendarDate(r.data)
    ensures Points(f + [r]) == Points(f) + [PointOf(r)]
  {
    assert (f + [r])[..|f|] == f;
  }

  /** The series holds each point once per reported record of the state whose point it is. */
  lemma EvolutionPointCount(rs: seq<PriceRecord>, selected: string, p: EvolutionPoint)
    requires AllDated(rs)
    ensures multiset(EvolutionData(rs, selected))[p] == |PointIndices(rs, selected, p)|
  {
    StatePointsCount(rs, selected, p);
  }

  lemma {:induction false} PointsMembers(f: seq<PriceRecord>, p: EvolutionPoint)
    requires forall r :: r in f ==> IsCalendarDate(r.data)
    ensures p in Points(f) <==> exists r :: r in f && p == PointOf(r)
  {
    if |f| > 0 {
      var init := f[..|f| - 1];
      assert forall r :: r in f <==> r in init || r == f[|f| - 1];
      PointsMembers(init, p);
    }
  }

  /**
   * The evolution series: one point per reported record of the selected
   * state (the points of those records, rearranged), in non-decreasing order
   * of day.
   */
  lemma EvolutionSpec(rs: seq<PriceRecord>, selected: string)
    requires AllDated(rs)
    ensures multiset(EvolutionData(rs, selected)) == multiset(Points(StateRecords(rs, selected)))
    ensures var e := EvolutionData(rs, selected);
            && (forall i, j :: 0 <= i < j < |e| ==> DateLe(e[i].date, e[j].date))
            && |e| == |FiledIndices(rs, Estado, selected)|
            && (forall p :: p in e ==> exists i :: 0 <= i < |rs| && rs[i].estado == selected && IsReported(rs[i]) && p == PointOf(rs[i]))
            && (forall i :: 0 <= i < |rs| && rs[i].estado == selected && IsReported(rs[i]) ==> PointOf(rs[i]) in e)
  {
    EvolutionSorted(rs, selected);
    EvolutionCount(rs, selected);
    EvolutionMembers(rs, selected);
  }

  lemma EvolutionSorted(rs: seq<PriceRecord>, selected: string)
    requires AllDated(rs)
    ensures SortedBy(EvolutionData(rs, selected), NoLater)
  {
    StateRecordsSpec(rs, selected);
    assert IsTotalPreorder(NoLater);
    SortBySorted(Points(StateRecords(rs, selected)), NoLater);
  }

  lemma EvolutionCount(rs: seq<PriceRecord>, selected: string)
    requires AllDated(rs)
    ensures |EvolutionData(rs, selected)| == |FiledIndices(rs, Estado, selected)|
  {
    StateRecordsSpec(rs, selected);
    PricesOfCount(rs, Estado, selected);
  }

  lemma EvolutionMembers(rs: seq<PriceRecord>, selected: string)
    requires AllDated(rs)
    ensures forall p :: p in EvolutionData(rs, selected) ==>
      exists i :: 0 <= i < |rs| && rs[i].estado == selected && IsReported(rs[i]) && p == PointOf(rs[i])
    ensures forall i :: 0 <= i < |rs| && rs[i].estado == selected && IsReported(rs[i]) ==> PointOf(rs[i]) in EvolutionData(rs, selected)
  {
    StateRecordsSpec(rs, selected);
    var f := StateRecords(rs, selected);
    var pts := Points(f);
    var e := EvolutionData(rs, selected);
    assert multiset(e) == multiset(pts);
    forall p | p in e
      ensures exists i :: 0 <= i < |rs| && rs[i].estado == selected && IsReported(rs[i]) && p == PointOf(rs[i])
    {
      assert p in multiset(pts);
      PointsMembers(f, p);
      var r :| r in f && p == PointOf(r);
      var i :| 0 <= i < |rs| && rs[i] == r;
    }
    forall i | 0 <= i < |rs| && rs[i].estado == selected && IsReported(rs[i]) ensures PointOf(rs[i]) in e {
      PointsMembers(f, PointOf(rs[i]));
      assert PointOf(rs[i]) in multiset(pts);
    }
  }

  // The mean price per state and per year.

  /** `d.data.split('-')[2]`, which is `undefined` (used as the key "undefined") when there are fewer than three fields. */
  function YearField(s: string): string {
    var f := Split(s, '-');
    if |f| >= 3 then f[2] else "undefined"
  }

  function YearOf(r: PriceRecord): string {
    YearField(r.data)
  }

  /** An entry `{ estado, "Preço Médio" }` or `{ year, "Preço Médio" }`. */
  datatype GroupMean = GroupMean(key: string, precoMedio: real)

  /** `Object.keys(table).map(k => ({ k, sum / count }))`. */
  function Means(keys: seq<string>, table: map<string, Tally>): seq<GroupMean>
    requires forall k :: k in keys ==> k in table && table[k].count > 0
  {
    seq(|keys|, i requires 0 <= i < |keys| => GroupMean(keys[i], table[keys[i]].sum / (table[keys[i]].count as real)))
  }

  /** The comparator `a["Preço Médio"] - b["Preço Médio"]`, read as "at most zero". */
  predicate NoDearer(a: GroupMean, b: GroupMean) {
    a.precoMedio <= b.precoMedio
  }

  /** The comparator `a.year.localeCompare(b.year)`, read as "at most zero". */
  predicate KeyNoLater(a: GroupMean, b: GroupMean) {
    StrLe(a.key, b.key)
  }

  function ByMean(keys: seq<string>, table: map<string, Tally>): seq<GroupMean>
    requires forall k :: k in keys ==> k in table && table[k].count > 0
  {
    SortBy(Means(keys, table), NoDearer)
  }

  function ByKey(keys: seq<string>, table: map<string, Tally>): seq<GroupMean>
    requires forall k :: k in keys ==> k in table && table[k].count > 0
  {
    SortBy(Means(keys, table), KeyNoLater)
  }

  lemma GroupTableCounts(rs: seq<PriceRecord>, key: PriceRecord -> string)
    ensures var keys, table := GroupKeys(rs, key), GroupTable(rs, key);
            forall k :: k in keys ==> k in table && table[k].count > 0
  {
  }

  /** `averagePriceByState`. */
  function StateAverages(rs: seq<PriceRecord>): seq<GroupMean>
  {
    GroupTableCounts(rs, Estado);
    ByMean(GroupKeys(rs, Estado), GroupTable(rs, Estado))
  }

  /** `averagePriceByYear`. */
  function YearAverages(rs: seq<PriceRecord>): seq<GroupMean>
  {
    GroupTableCounts(rs, YearOf);
    ByKey(GroupKeys(rs, YearOf), GroupTable(rs, YearOf))
  }

  /**
   * Any rearrangement of the group means has one entry per key that holds a
   * reported record, whose value is the mean of that key's reported prices.
   */
  lemma {:induction false} GroupMeansSpec(rs: seq<PriceRecord>, key: PriceRecord -> string, a: seq<GroupMean>)
    requires multiset(a) == multiset(Means(GroupKeys(rs, key), GroupTable(rs, key)))
    ensures forall i :: 0 <= i < |a| ==> |PricesOf(rs, key, a[i].key)| > 0 && a[i].precoMedio == Mean(PricesOf(rs, key, a[i].key))
    ensures forall i, j :: 0 <= i < |a| && 0 <= j < |a| && a[i].key == a[j].key ==> i == j
    ensures forall i :: 0 <= i < |rs| && IsReported(rs[i]) ==> exists j :: 0 <= j < |a| && a[j].key == key(rs[i])
  {
    GroupMeansValues(rs, key, a);
    GroupMeansDistinct(rs, key, a);
    GroupMeansCover(rs, key, a);
  }

  lemma {:induction false} GroupMeansValues(rs: seq<PriceRecord>, key: PriceRecord -> string, a: seq<GroupMean>)
    requires multiset(a) == multiset(Means(GroupKeys(rs, key), GroupTable(rs, key)))
    ensures forall i :: 0 <= i < |a| ==> |PricesOf(rs, key, a[i].key)| > 0 && a[i].precoMedio == Mean(PricesOf(rs, key, a[i].key))
  {
    var ms := Means(GroupKeys(rs, key), GroupTable(rs, key));
    forall i | 0 <= i < |a| ensures |PricesOf(rs, key, a[i].key)| > 0 && a[i].precoMedio == Mean(PricesOf(rs, key, a[i].key)) {
      assert a[i] in multiset(ms);
      var m :| 0 <= m < |ms| && ms[m] == a[i];
    }
  }

  lemma {:induction false} GroupMeansDistinct(rs: seq<PriceRecord>, key: PriceRecord -> string, a: seq<GroupMean>)
    requires multiset(a) == multiset(Means(GroupKeys(rs, key), GroupTable(rs, key)))
    ensures forall i, j :: 0 <= i < |a| && 0 <= j < |a| && a[i].key == a[j].key ==> i == j
  {
    var ms := Means(GroupKeys(rs, key), GroupTable(rs, key));
    assert Distinct(ms);
    PermutationDistinct(a, ms);
    forall i, j | 0 <= i < |a| && 0 <= j < |a| && a[i].key == a[j].key ensures i == j {
      assert a[i] in multiset(ms) && a[j] in multiset(ms);
      var m :| 0 <= m < |ms| && ms[m] == a[i];
      var n :| 0 <= n < |ms| && ms[n] == a[j];
    }
  }

  lemma {:induction false} GroupMeansCover(rs: seq<PriceRecord>, key: PriceRecord -> string, a: seq<GroupMean>)
    requires multiset(a) == multiset(Means(GroupKeys(rs, key), GroupTable(rs, key)))
    ensures forall i :: 0 <= i < |rs| && IsReported(rs[i]) ==> exists j :: 0 <= j < |a| && a[j].key == key(rs[i])
  {
    var keys := GroupKeys(rs, key);
    var ms := Means(keys, GroupTable(rs, key));
    forall i | 0 <= i < |rs| && IsReported(rs[i]) ensures exists j :: 0 <= j < |a| && a[j].key == key(rs[i]) {
      PricesOfWitness(rs, key, key(rs[i]));
      var m :| 0 <= m < |keys| && keys[m] == key(rs[i]);
      assert ms[m] in multiset(a);
    }
  }

  /**
   * The mean price per state: one entry per state with a reported record,
   * the mean of that state's reported prices, in non-decreasing order of mean.
   */
  lemma StateAveragesSpec(rs: seq<PriceRecord>)
    ensures var a := StateAverages(rs);
            && (forall i :: 0 <= i < |a| ==> |PricesOf(rs, Estado, a[i].key)| > 0 && a[i].precoMedio == Mean(PricesOf(rs, Estado, a[i].key)))
            && (forall i, j :: 0 <= i < |a| && 0 <= j < |a| && a[i].key == a[j].key ==> i == j)
            && (forall i :: 0 <= i < |rs| && IsReported(rs[i]) ==> exists j :: 0 <= j < |a| && a[j].key == rs[i].estado)
            && (forall i, j :: 0 <= i < j < |a| ==> a[i].precoMedio <= a[j].precoMedio)
  {
    GroupTableCounts(rs, Estado);
    var ms := Means(GroupKeys(rs, Estado), GroupTable(rs, Estado));
    GroupMeansSpec(rs, Estado, StateAverages(rs));
    assert IsTotalPreorder(NoDearer);
    SortBySorted(ms, NoDearer);
  }

  lemma KeyNoLaterTotal()
    ensures IsTotalPreorder(KeyNoLater)
  {
    forall a, b ensures KeyNoLater(a, b) || KeyNoLater(b, a) {
      StrLeTotal(a.key, b.key);
    }
    forall a, b, c | KeyNoLater(a, b) && KeyNoLater(b, c) ensures KeyNoLater(a, c) {
      StrLeTransitive(a.key, b.key, c.key);
    }
  }

  /**
   * The mean price per year: one entry per distinct third date field among
   * the reported records, that year's mean, in strictly ascending order of
   * the year string.
   */
  lemma YearAveragesSpec(rs: seq<PriceRecord>)
    ensures var a := YearAverages(rs);
            && (forall i :: 0 <= i < |a| ==> |PricesOf(rs, YearOf, a[i].key)| > 0 && a[i].precoMedio == Mean(PricesOf(rs, YearOf, a[i].key)))
            && (forall i :: 0 <= i < |rs| && IsReported(rs[i]) ==> exists j :: 0 <= j < |a| && a[j].key == YearField(rs[i].data))
            && (forall i, j :: 0 <= i < j < |a| ==> StrLe(a[i].key, a[j].key) && a[i].key != a[j].key)
  {
    GroupTableCounts(rs, YearOf);
    var ms := Means(GroupKeys(rs, YearOf), GroupTable(rs, YearOf));
    var a := YearAverages(rs);
    GroupMeansSpec(rs, YearOf, a);
    KeyNoLaterTotal();
    SortBySorted(ms, KeyNoLater);
    forall i, j | 0 <= i < j < |a| ensures StrLe(a[i].key, a[j].key) && a[i].key != a[j].key {
      assert KeyNoLater(a[i], a[j]);
    }
  }

  /** For a record whose date reads as a day, its year key is the digits of that day's year. */
  lemma YearFieldOfDate(r: PriceRecord)
    requires IsCalendarDate(r.data)
    ensures IsDigits(YearOf(r)) && DigitsValue(YearOf(r)) == RecordDate(r).year
  {
  }

  // The whole derivation.

  datatype DashboardData = DashboardData(
    kpis: Kpis,
    evolutionData: seq<EvolutionPoint>,
    averagePriceByState: seq<GroupMean>,
    averagePriceByYear: seq<GroupMean>)

  function DashboardOf(rs: seq<PriceRecord>, selected: string): DashboardData
    requires AllDated(rs)
  {
    DashboardData(KpisOf(rs), EvolutionData(rs, selected), StateAverages(rs), YearAverages(rs))
  }

  /**
   * The memoised computation: the two dictionaries are filled by their
   * `forEach` passes, the rest are the pure pipelines.
   */
  method ComputeDashboard(rs: seq<PriceRecord>, selected: string) returns (d: DashboardData)
    requires AllDated(rs)
    ensures d == DashboardOf(rs, selected)
  {
    var kpis := KpisOf(rs);
    var evolution := EvolutionData(rs, selected);
    var stateKeys, statePriceData := AccumulateBy(rs, Estado);
    var yearKeys, yearPriceData := AccumulateBy(rs, YearOf);
    GroupTableCounts(rs, Estado);
    GroupTableCounts(rs, YearOf);
    d := DashboardData(kpis, evolution, ByMean(stateKeys, statePriceData), ByKey(yearKeys, yearPriceData));
  }

  /** Records without a reported price change neither the state nor the year averages. */
  lemma AveragesIgnoreUnreported(a: seq<PriceRecord>, r: PriceRecord, b: seq<PriceRecord>)
    requires !IsReported(r)
    ensures StateAverages(a + [r] + b) == StateAverages(a + b)
    ensures YearAverages(a + [r] + b) == YearAverages(a + b)
  {
    KeysUnreportedIgnored(a, r, b, Estado);
    KeysUnreportedIgnored(a, r, b, YearOf);
    TableUnreportedIgnored(a, r, b, Estado);
    TableUnreportedIgnored(a, r, b, YearOf);
  }
}
