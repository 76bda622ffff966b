/**
 * The forecast of the predictive screen (`handlePredict`): the national
 * average price of each calendar month, in chronological order, followed by
 * a projection that compounds 2% a month from the last monthly average, and
 * a fixed ranking of market factors.
 */
module Forecast {
  import opened Wrappers
  import opened Text
  import opened Calendar
  import opened Sorting
  import opened Prices

  /**
   * A point of the forecast chart, `{ name, historicalPrice, predictedPrice, date? }`;
   * `None` stands for `null` and for a field left out.
   */
  datatype ForecastPoint = ForecastPoint(name: Label, historicalPrice: Option<real>, predictedPrice: Option<real>, date: Option<Date>)

  datatype FeatureImportance = FeatureImportance(name: string, importance: int)

  datatype PredictionResult = PredictionResult(
    forecastData: seq<ForecastPoint>,
    featureImportance: seq<FeatureImportance>,
    lastHistoricalDate: Label)

  /** No reported price at all: `historicalData` is empty and reading its last point throws. */
  datatype PredictError = NoHistoricalData

  /** A `monthlyAverages` entry, `{ sum, count, date }`. */
  datatype MonthTally = MonthTally(sum: real, count: nat, date: Date)

  /** The monthly growth of the projection, `+2%`. */
  const GrowthFactor: real := 1.02

  /** `Math.pow(b, n)` for a whole exponent. */
  function Pow(b: real, n: nat): real
  {
    if n == 0 then 1.0 else Pow(b, n - 1) * b
  }

  /** The month a record falls in, read from its date string. */
  function MonthOf(r: PriceRecord): Option<Date>
  {
    ParseMonth(r.data)
  }

  /** The dictionary key of a record; `NaN-NaN` is what the template gives for unreadable fields. */
  function MonthKeyOf(r: PriceRecord): string
  {
    match ParseMonth(r.data)
    case Some(d) => MonthKey(d)
    case None => "NaN-NaN"
  }

  /** What the forecast needs of the dataset: every reported record names a month in its date string. */
  predicate MonthsReadable(rs: seq<PriceRecord>) {
    forall i :: 0 <= i < |rs| && IsReported(rs[i]) ==> HasMonthFields(rs[i].data)
  }

  /** The first day of the month a key names. */
  function MonthStart(k: string): Date
  {
    match ParseMonthKey(k)
    case Some(d) => d
    case None => Epoch
  }

  /** The entry a month key has once `rs` has been read. */
  function MonthTallyOf(rs: seq<PriceRecord>, k: string): MonthTally
  {
    MonthTally(Sum(PricesOf(rs, MonthKeyOf, k)), |PricesOf(rs, MonthKeyOf, k)|, MonthStart(k))
  }

  /** `monthlyAverages` after the pass over the records. */
  function MonthTable(rs: seq<PriceRecord>): map<string, MonthTally>
  {
    map k | k in GroupKeys(rs, MonthKeyOf) :: MonthTallyOf(rs, k)
  }

  ghost predicate MonthTabulates(table: map<string, MonthTally>, rs: seq<PriceRecord>)
  {
    && (forall k :: k in table <==> |PricesOf(rs, MonthKeyOf, k)| > 0)
    && (forall k :: k in table ==> table[k] == MonthTallyOf(rs, k))
  }

  /**
   * The `forEach` that fills `monthlyAverages`, one record at a time.
   */
  method AccumulateMonths(rs: seq<PriceRecord>) returns (keys: seq<string>, monthlyAverages: map<string, MonthTally>)
    requires MonthsReadable(rs)
    ensures keys == GroupKeys(rs, MonthKeyOf)
    ensures monthlyAverages == MonthTable(rs)
  {
    keys, monthlyAverages := [], map[];
    var i := 0;
    MonthFiledEmpty(rs);
    while i < |rs|
      invariant 0 <= i <= |rs|
      invariant MonthFiled(keys, monthlyAverages, rs[..i])
    {
      MonthFiledStep(keys, monthlyAverages, rs[..i], rs[i]);
      assert rs[..i + 1] == rs[..i] + [rs[i]];
      keys, monthlyAverages := FileMonth(keys, monthlyAverages, rs[i]);
      i := i + 1;
    }
    MonthFiledAll(keys, monthlyAverages, rs);
  }

  /**
   * The `forEach` callback: a reported record is filed under `${year}-${MM}`;
   * a new key opens `{ sum: 0, count: 0, date }` dated the first of the month,
   * then the price is added to the sum and the count goes up by one.
   */
  method FileMonth(keys: seq<string>, monthlyAverages: map<string, MonthTally>, item: PriceRecord)
    returns (keys': seq<string>, monthlyAverages': map<string, MonthTally>)
    requires IsReported(item) ==> HasMonthFields(item.data)
    ensures keys' == NextMonthKeys(keys, monthlyAverages, item)
    ensures monthlyAverages' == NextMonthTable(monthlyAverages, item)
  {
    keys', monthlyAverages' := keys, monthlyAverages;
    if item.precoLeiteProdutor > 0.0 {
      var fields := Split(item.data, '-');
      var month, year := DigitsValue(fields[1]), DigitsValue(fields[2]);
      var date := Date(year, month, 1);
      var key := MonthKey(date);
      MonthKeyRoundTrip(date);
      var entry := MonthTally(0.0, 0, date);
      if key in monthlyAverages {
        entry := monthlyAverages[key];
      } else {
        keys' := keys + [key];
      }
      monthlyAverages' := monthlyAverages[key := MonthTally(entry.sum + item.precoLeiteProdutor, entry.count + 1, entry.date)];
    }
  }

  /** The keys and `monthlyAverages` of the pass after reading `done`. */
  ghost predicate MonthFiled(keys: seq<string>, table: map<string, MonthTally>, done: seq<PriceRecord>)
  {
    keys == GroupKeys(done, MonthKeyOf) && MonthTabulates(table, done)
  }

  /** The keys after reading `r`: its month key is appended when it is reported and new. */
  function NextMonthKeys(keys: seq<string>, table: map<string, MonthTally>, r: PriceRecord): seq<string>
  {
    if IsReported(r) && MonthKeyOf(r) !in table then keys + [MonthKeyOf(r)] else keys
  }

  /** `monthlyAverages` after reading `r`. */
  function NextMonthTable(table: map<string, MonthTally>, r: PriceRecord): map<string, MonthTally>
  {
    if IsReported(r) then AddMonthPrice(table, MonthKeyOf(r), r.precoLeiteProdutor, MonthStart(MonthKeyOf(r))) else table
  }

  lemma MonthFiledEmpty(rs: seq<PriceRecord>)
    ensures MonthFiled([], map[], rs[..0])
  {
    assert rs[..0] == [];
  }

  /** One step of the pass keeps the keys and the entries in step with the records read. */
  lemma MonthFiledStep(keys: seq<string>, table: map<string, MonthTally>, done: seq<PriceRecord>, r: PriceRecord)
    requires MonthFiled(keys, table, done)
    ensures MonthFiled(NextMonthKeys(keys, table, r), NextMonthTable(table, r), done + [r])
  {
    KeysSnoc(done, r, MonthKeyOf);
    if IsReported(r) {
      MonthTabulatesStep(table, done, r, MonthKeyOf(r), MonthStart(MonthKeyOf(r)));
    } else {
      MonthTabulatesSkip(table, done, r);
    }
  }

  lemma MonthFiledAll(keys: seq<string>, table: map<string, MonthTally>, rs: seq<PriceRecord>)
    requires MonthFiled(keys, table, rs[..|rs|])
    ensures keys == GroupKeys(rs, MonthKeyOf) && table == MonthTable(rs)
  {
    assert rs[..|rs|] == rs;
    MonthTabulatesTable(table, rs);
  }

  lemma MonthTabulatesTable(table: map<string, MonthTally>, rs: seq<PriceRecord>)
    requires MonthTabulates(table, rs)
    ensures table == MonthTable(rs)
  {
    forall k ensures k in table <==> k in MonthTable(rs) {
    }
  }

  /** Adds one price to a month's entry, opening it dated `date` when the key is new. */
  function AddMonthPrice(table: map<string, MonthTally>, k: string, p: real, date: Date): map<string, MonthTally>
  {
    var entry := if k in table then table[k] else MonthTally(0.0, 0, date);
    table[k := MonthTally(entry.sum + p, entry.count + 1, entry.date)]
  }

  /** Reading a reported record adds its price under its month key. */
  lemma MonthTabulatesStep(table: map<string, MonthTally>, rs: seq<PriceRecord>, r: PriceRecord, k: string, date: Date)
    requires MonthTabulates(table, rs)
    requires IsReported(r) && MonthKeyOf(r) == k && MonthStart(k) == date
    ensures MonthTabulates(AddMonthPrice(table, k, r.precoLeiteProdutor, date), rs + [r])
  {
    var t := AddMonthPrice(table, k, r.precoLeiteProdutor, date);
    forall k' ensures k' in t <==> |PricesOf(rs + [r], MonthKeyOf, k')| > 0 {
      PricesSnoc(rs, r, MonthKeyOf, k');
    }
    forall k' | k' in t ensures t[k'] == MonthTallyOf(rs + [r], k') {
      PricesSnoc(rs, r, MonthKeyOf, k');
      if k' == k {
        SumSnoc(PricesOf(rs, MonthKeyOf, k), r.precoLeiteProdutor);
      }
    }
  }

  /** Reading a record without a reported price changes nothing. */
  lemma MonthTabulatesSkip(table: map<string, MonthTally>, rs: seq<PriceRecord>, r: PriceRecord)
    requires MonthTabulates(table, rs)
    requires !IsReported(r)
    ensures MonthTabulates(table, rs + [r])
  {
    forall k ensures PricesOf(rs + [r], MonthKeyOf, k) == PricesOf(rs, MonthKeyOf, k) {
      PricesSnoc(rs, r, MonthKeyOf, k);
    }
  }

  /** One point of `historicalData`, built from a dictionary entry. */
  function HistoricalPoint(e: MonthTally): ForecastPoint
    requires e.count > 0
  {
    ForecastPoint(LabelOf(e.date), Some(e.sum / (e.count as real)), None, Some(e.date))
  }

  /** The date a point is sorted by. */
  function PointDate(p: ForecastPoint): Date
  {
    p.date.GetOr(Epoch)
  }

  /** The comparator `a.date!.getTime() - b.date!.getTime()`, read as "at most zero". */
  predicate EarlierOrSame(a: ForecastPoint, b: ForecastPoint)
  {
    DateLe(PointDate(a), PointDate(b))
  }

  lemma EarlierOrSameTotal()
    ensures IsTotalPreorder(EarlierOrSame)
  {
  }

  /** `Object.keys(monthlyAverages).map(...)`, one point per key in key order. */
  function HistoricalPoints(keys: seq<string>, table: map<string, MonthTally>): seq<ForecastPoint>
    requires forall k :: k in keys ==> k in table && table[k].count > 0
  {
    seq(|keys|, i requires 0 <= i < |keys| => HistoricalPoint(table[keys[i]]))
  }

  /** `historicalData`: the points of the dictionary sorted by date. */
  function HistoricalData(keys: seq<string>, table: map<string, MonthTally>): (h: seq<ForecastPoint>)
    requires forall k :: k in keys ==> k in table && table[k].count > 0
    ensures |h| == |keys|
    ensures forall p :: p in h ==> p.date.Some? && p.historicalPrice.Some? && p.predictedPrice.None?
  {
    var pts := HistoricalPoints(keys, table);
    var h := SortBy(pts, EarlierOrSame);
    assert forall p :: p in h ==> p in multiset(pts);
    h
  }

  /** The `i`-th projected point: `i` months after the last month, priced `lastPrice * 1.02^i`. */
  function ProjectedPoint(lastDate: Date, lastPrice: real, i: nat): ForecastPoint
  {
    ForecastPoint(LabelOf(AddMonths(lastDate, i)), None, Some(lastPrice * Pow(GrowthFactor, i)), None)
  }

  /** `predictedData` after the loop has run for `i = 1 .. months`. */
  function Projection(lastDate: Date, lastPrice: real, months: int): (p: seq<ForecastPoint>)
    ensures |p| == if months > 0 then months else 0
  {
    if months <= 0 then [] else Projection(lastDate, lastPrice, months - 1) + [ProjectedPoint(lastDate, lastPrice, months)]
  }

  /**
   * The projection loop: for `i` from 1 to `months`, a copy of the last date
   * moved `i` months on and the last price compounded `i` times are pushed.
   */
  method Project(lastDate: Date, lastPrice: real, months: int) returns (predictedData: seq<ForecastPoint>)
    ensures predictedData == Projection(lastDate, lastPrice, months)
  {
    predictedData := [];
    var i := 1;
    while i <= months
      invariant 1 <= i <= if months >= 1 then months + 1 else 1
      invariant predictedData == Projection(lastDate, lastPrice, i - 1)
    {
      var newDate := lastDate;
      newDate := SetMonth(newDate, newDate.month - 1 + i);
      var newPrice := lastPrice * Pow(GrowthFactor, i);
      predictedData := predictedData + [ForecastPoint(LabelOf(newDate), None, Some(newPrice), None)];
      assert newDate == AddMonths(lastDate, i);
      assert predictedData == Projection(lastDate, lastPrice, i - 1) + [ProjectedPoint(lastDate, lastPrice, i)];
      i := i + 1;
    }
  }

  /** The five simulated market factors, in the order they are written. */
  const Factors: seq<FeatureImportance> := [
    FeatureImportance("Custo da Ração", 45),
    FeatureImportance("Câmbio (Dólar)", 25),
    FeatureImportance("Clima", 15),
    FeatureImportance("Demanda Interna", 10),
    FeatureImportance("Exportações", 5)
  ]

  /** The comparator `a.importance - b.importance`, read as "at most zero". */
  predicate LessOrAsImportant(a: FeatureImportance, b: FeatureImportance)
  {
    a.importance <= b.importance
  }

  /** `featureImportance`: the factors sorted by ascending importance. */
  function FeatureRanking(): seq<FeatureImportance>
  {
    SortBy(Factors, LessOrAsImportant)
  }

  /** `historicalData` for a dataset. */
  function History(rs: seq<PriceRecord>): seq<ForecastPoint>
  {
    HistoricalData(GroupKeys(rs, MonthKeyOf), MonthTable(rs))
  }

  /** The whole of `handlePredict` after the delay, as a value. */
  function Prediction(rs: seq<PriceRecord>, months: int): Result<PredictionResult, PredictError>
  {
    var hist := History(rs);
    if |hist| == 0 then Failure(NoHistoricalData) else Success(Assemble(hist, months, FeatureRanking()))
  }

  /** The history continued by the projection from its last point, the ranking and the marker. */
  function Assemble(hist: seq<ForecastPoint>, months: int, ranking: seq<FeatureImportance>): PredictionResult
    requires |hist| > 0 && hist[|hist| - 1].date.Some?
  {
    var last := hist[|hist| - 1];
    PredictionResult(
      hist + Projection(last.date.value, last.historicalPrice.GetOr(0.0), months),
      ranking,
      last.name)
  }

  /**
   * `handlePredict`: monthly averages, the sorted history, the projection
   * from the last month, the concatenation and the factor ranking.
   */
  method HandlePredict(rs: seq<PriceRecord>, months: int) returns (result: Result<PredictionResult, PredictError>)
    requires MonthsReadable(rs)
    ensures result == Prediction(rs, months)
  {
    var keys, monthlyAverages := AccumulateMonths(rs);
    var historicalData := HistoricalData(keys, monthlyAverages);
    if |historicalData| == 0 {
      return Failure(NoHistoricalData);
    }
    var lastHistoricalPoint := historicalData[|historicalData| - 1];
    assert lastHistoricalPoint in historicalData;
    var lastPrice := lastHistoricalPoint.historicalPrice.GetOr(0.0);
    var lastDate := lastHistoricalPoint.date.value;
    var predictedData := Project(lastDate, lastPrice, months);
    var fullForecastData := historicalData + predictedData;
    var featureImportance := FeatureRanking();
    result := Success(PredictionResult(fullForecastData, featureImportance, lastHistoricalPoint.name));
  }

  // Properties of the forecast.

  /** Records without a reported price change neither any month's sum and count nor the forecast. */
  lemma UnreportedIgnoredByForecast(a: seq<PriceRecord>, r: PriceRecord, b: seq<PriceRecord>, months: int)
    requires !IsReported(r)
    ensures MonthTable(a + [r] + b) == MonthTable(a + b)
    ensures Prediction(a + [r] + b, months) == Prediction(a + b, months)
  {
    MonthTableUnreportedIgnored(a, r, b);
    KeysUnreportedIgnored(a, r, b, MonthKeyOf);
    assert History(a + [r] + b) == History(a + b);
  }

  lemma MonthTableUnreportedIgnored(a: seq<PriceRecord>, r: PriceRecord, b: seq<PriceRecord>)
    requires !IsReported(r)
    ensures MonthTable(a + [r] + b) == MonthTable(a + b)
  {
    KeysUnreportedIgnored(a, r, b, MonthKeyOf);
    forall k ensures PricesOf(a + [r] + b, MonthKeyOf, k) == PricesOf(a + b, MonthKeyOf, k) {
      UnreportedIgnored(a, r, b, MonthKeyOf, k);
    }
    assert MonthTable(a + [r] + b) == MonthTable(a + b);
  }

  /** The forecast fails exactly when no record has a reported price. */
  lemma FailsIffNoReportedPrice(rs: seq<PriceRecord>, months: int)
    ensures Prediction(rs, months).Failure? <==> forall i :: 0 <= i < |rs| ==> !IsReported(rs[i])
  {
    var keys := GroupKeys(rs, MonthKeyOf);
    if |keys| == 0 {
      forall i | 0 <= i < |rs| ensures !IsReported(rs[i]) {
        PricesOfWitness(rs, MonthKeyOf, MonthKeyOf(rs[i]));
      }
    } else {
      PricesOfWitness(rs, MonthKeyOf, keys[0]);
    }
  }

  /** Every key of the table is the key of the month it names, and some reported record lies in that month. */
  lemma KeyNamesItsMonth(rs: seq<PriceRecord>, k: string)
    requires MonthsReadable(rs)
    requires k in GroupKeys(rs, MonthKeyOf)
    ensures MonthStart(k).day == 1 && MonthStart(k).year >= 0 && MonthStart(k).month >= 0
    ensures MonthKey(MonthStart(k)) == k
    ensures exists i :: 0 <= i < |rs| && IsReported(rs[i]) && MonthOf(rs[i]) == Some(MonthStart(k))
  {
    PricesOfWitness(rs, MonthKeyOf, k);
    var i :| 0 <= i < |rs| && IsReported(rs[i]) && MonthKeyOf(rs[i]) == k;
    var d := ParseMonth(rs[i].data).value;
    MonthKeyRoundTrip(d);
  }

  /** Filing by month key is filing by month: the key sees neither the day nor the state. */
  lemma MonthPricesByKey(rs: seq<PriceRecord>, d: Date)
    requires MonthsReadable(rs)
    requires d.year >= 0 && d.month >= 0 && d.day == 1
    ensures PricesOf(rs, MonthKeyOf, MonthKey(d)) == PricesOf(rs, MonthOf, Some(d))
  {
    forall i | 0 <= i < |rs| && IsReported(rs[i])
      ensures MonthKeyOf(rs[i]) == MonthKey(d) <==> MonthOf(rs[i]) == Some(d)
    {
      var e := ParseMonth(rs[i].data).value;
      MonthKeyInjective(e, d);
    }
    PricesOfTransfer(rs, MonthKeyOf, MonthKey(d), MonthOf, Some(d));
  }

  /** Distinct keys give points of distinct months. */
  lemma HistoricalPointsDistinctMonths(rs: seq<PriceRecord>, pts: seq<ForecastPoint>)
    requires MonthsReadable(rs)
    requires pts == HistoricalPoints(GroupKeys(rs, MonthKeyOf), MonthTable(rs))
    ensures forall m, n :: 0 <= m < |pts| && 0 <= n < |pts| && pts[m].date == pts[n].date ==> m == n
  {
    var keys, table := GroupKeys(rs, MonthKeyOf), MonthTable(rs);
    forall m, n | 0 <= m < |pts| && 0 <= n < |pts| && pts[m].date == pts[n].date ensures m == n {
      KeyNamesItsMonth(rs, keys[m]);
      KeyNamesItsMonth(rs, keys[n]);
      assert MonthStart(keys[m]) == MonthStart(keys[n]);
    }
  }

  /**
   * Each historical point is dated the first of a month that holds a
   * reported record, carries that month's label and no projected price, and
   * its price is the mean of the reported prices of all records of that
   * month, whatever their day or state.
   */
  lemma HistoryPointIsMonthMean(rs: seq<PriceRecord>, j: int)
    requires MonthsReadable(rs)
    requires 0 <= j < |History(rs)|
    ensures var p := History(rs)[j];
            && p.date.Some? && p.date.value.day == 1
            && p.name == LabelOf(p.date.value)
            && p.predictedPrice.None?
            && (exists i :: 0 <= i < |rs| && IsReported(rs[i]) && MonthOf(rs[i]) == p.date)
            && |PricesOf(rs, MonthOf, p.date)| > 0
            && p.historicalPrice == Some(Mean(PricesOf(rs, MonthOf, p.date)))
  {
    var keys, table := GroupKeys(rs, MonthKeyOf), MonthTable(rs);
    var pts := HistoricalPoints(keys, table);
    var p := History(rs)[j];
    assert p in multiset(pts);
    var m :| 0 <= m < |pts| && pts[m] == p;
    var k := keys[m];
    KeyNamesItsMonth(rs, k);
    MonthPricesByKey(rs, MonthStart(k));
  }

  /** Every month that holds a reported record has a historical point. */
  lemma HistoryCoversEveryMonth(rs: seq<PriceRecord>, i: int)
    requires MonthsReadable(rs)
    requires 0 <= i < |rs| && IsReported(rs[i])
    ensures exists j :: 0 <= j < |History(rs)| && History(rs)[j].date == MonthOf(rs[i])
  {
    var keys, table := GroupKeys(rs, MonthKeyOf), MonthTable(rs);
    var pts := HistoricalPoints(keys, table);
    var k := MonthKeyOf(rs[i]);
    PricesOfWitness(rs, MonthKeyOf, k);
    var m :| 0 <= m < |keys| && keys[m] == k;
    var d := ParseMonth(rs[i].data).value;
    MonthKeyRoundTrip(d);
    assert pts[m].date == MonthOf(rs[i]);
    assert pts[m] in multiset(History(rs));
  }

  /** Points of pairwise distinct dates, sorted by date, are strictly ascending. */
  lemma SortedDistinctDatesAscending(pts: seq<ForecastPoint>, h: seq<ForecastPoint>)
    requires forall p :: p in pts ==> p.date.Some?
    requires forall m, n :: 0 <= m < |pts| && 0 <= n < |pts| && pts[m].date == pts[n].date ==> m == n
    requires multiset(h) == multiset(pts)
    requires SortedBy(h, EarlierOrSame)
    ensures forall i, j :: 0 <= i < j < |h| ==> DateLt(PointDate(h[i]), PointDate(h[j]))
  {
    assert Distinct(pts);
    PermutationDistinct(h, pts);
    forall i, j | 0 <= i < j < |h| ensures DateLt(PointDate(h[i]), PointDate(h[j])) {
      assert h[i] in multiset(pts) && h[j] in multiset(pts);
      var m :| 0 <= m < |pts| && pts[m] == h[i];
      var n :| 0 <= n < |pts| && pts[n] == h[j];
      assert EarlierOrSame(h[i], h[j]);
    }
  }

  /** The historical series is strictly ascending by month: one point per month, in calendar order. */
  lemma HistoryStrictlyAscending(rs: seq<PriceRecord>)
    requires MonthsReadable(rs)
    ensures var h := History(rs);
            forall i, j :: 0 <= i < j < |h| ==> DateLt(h[i].date.value, h[j].date.value)
  {
    var pts := HistoricalPoints(GroupKeys(rs, MonthKeyOf), MonthTable(rs));
    var h := History(rs);
    HistoricalPointsDistinctMonths(rs, pts);
    EarlierOrSameTotal();
    SortBySorted(pts, EarlierOrSame);
    SortedDistinctDatesAscending(pts, h);
    forall i, j | 0 <= i < j < |h| ensures DateLt(h[i].date.value, h[j].date.value) {
      assert h[i] in h && h[j] in h;
    }
  }

  /** `Projection(...)[i]` is the point of month `i + 1`. */
  lemma {:induction false} ProjectionAt(lastDate: Date, lastPrice: real, months: int, i: int)
    requires 0 <= i < months
    ensures Projection(lastDate, lastPrice, months)[i] == ProjectedPoint(lastDate, lastPrice, i + 1)
  {
    if i < months - 1 {
      ProjectionAt(lastDate, lastPrice, months - 1, i);
    }
  }

  /**
   * The compounding law: the first projected price is the last price times
   * 1.02 and each later one is the one before times 1.02; projected points
   * carry no historical price and no date.
   */
  lemma ProjectionCompounds(lastDate: Date, lastPrice: real, months: int)
    ensures var p := Projection(lastDate, lastPrice, months);
            && (forall i :: 0 <= i < |p| ==> p[i].historicalPrice.None? && p[i].predictedPrice.Some? && p[i].date.None?)
            && (|p| > 0 ==> p[0].predictedPrice == Some(lastPrice * GrowthFactor))
            && (forall i :: 0 < i < |p| ==> p[i].predictedPrice.value == p[i - 1].predictedPrice.value * GrowthFactor)
  {
    var p := Projection(lastDate, lastPrice, months);
    forall i | 0 <= i < |p| ensures p[i].historicalPrice.None? && p[i].predictedPrice.Some? && p[i].date.None? {
      ProjectionPrice(lastDate, lastPrice, months, i);
    }
    forall i | 0 < i < |p| ensures p[i].predictedPrice.value == p[i - 1].predictedPrice.value * GrowthFactor {
      ProjectionPrice(lastDate, lastPrice, months, i);
      ProjectionPrice(lastDate, lastPrice, months, i - 1);
      CompoundStep(lastPrice, i);
    }
    if |p| > 0 {
      ProjectionFirst(lastDate, lastPrice, months);
    }
  }

  /** Projected point `i` (from 0) is priced `lastPrice * 1.02^(i + 1)` and carries neither a historical price nor a date. */
  lemma ProjectionPrice(lastDate: Date, lastPrice: real, months: int, i: int)
    requires 0 <= i < months
    ensures var q := Projection(lastDate, lastPrice, months)[i];
            q.historicalPrice.None? && q.date.None? && q.predictedPrice.Some? && q.predictedPrice.value == lastPrice * Pow(GrowthFactor, i + 1)
  {
    ProjectionAt(lastDate, lastPrice, months, i);
    var q, r := Projection(lastDate, lastPrice, months)[i], ProjectedPoint(lastDate, lastPrice, i + 1);
    assert q == r;
    assert r.predictedPrice.value == lastPrice * Pow(GrowthFactor, i + 1);
  }

  /** The first projected price is the last price times the growth factor. */
  lemma ProjectionFirst(lastDate: Date, lastPrice: real, months: int)
    requires months > 0
    ensures Projection(lastDate, lastPrice, months)[0].predictedPrice == Some(lastPrice * GrowthFactor)
  {
    ProjectionAt(lastDate, lastPrice, months, 0);
    FirstProjectedPrice(lastDate, lastPrice);
  }

  lemma FirstProjectedPrice(lastDate: Date, lastPrice: real)
    ensures ProjectedPoint(lastDate, lastPrice, 1).predictedPrice == Some(lastPrice * GrowthFactor)
  {
    assert Pow(GrowthFactor, 1) == GrowthFactor;
    assert ProjectedPoint(lastDate, lastPrice, 1).predictedPrice.value == lastPrice * GrowthFactor;
  }

  /** One more month multiplies the projected price by the growth factor. */
  lemma CompoundStep(lastPrice: real, i: nat)
    ensures lastPrice * Pow(GrowthFactor, i + 1) == lastPrice * Pow(GrowthFactor, i) * GrowthFactor
  {
    var q := Pow(GrowthFactor, i);
    assert Pow(GrowthFactor, i + 1) == q * GrowthFactor;
    assert lastPrice * (q * GrowthFactor) == (lastPrice * q) * GrowthFactor;
  }

  /**
   * Projected point `i` (from 1) is labelled `i` months after the last
   * month, with year rollover: each is the month after the one before, and
   * all lie after the last month. The last date is a day every month has,
   * as the first day of a month, the date of every historical point, is.
   */
  lemma ProjectionMonths(lastDate: Date, lastPrice: real, months: int)
    requires 1 <= lastDate.month <= 12 && 1 <= lastDate.day <= 28
    ensures var p := Projection(lastDate, lastPrice, months);
            && (forall i :: 0 <= i < |p| ==> p[i].name == LabelOf(AddMonths(lastDate, i + 1)))
            && (|p| > 0 ==> p[0].name == LabelOf(NextMonth(lastDate)))
            && (forall i :: 0 < i < |p| ==> AddMonths(lastDate, i + 1) == NextMonth(AddMonths(lastDate, i)))
            && (forall i :: 1 <= i <= |p| ==> DateLt(lastDate, AddMonths(lastDate, i)))
  {
    var p := Projection(lastDate, lastPrice, months);
    forall i | 0 <= i < |p| ensures p[i].name == LabelOf(AddMonths(lastDate, i + 1)) {
      ProjectionAt(lastDate, lastPrice, months, i);
    }
    AddNoMonths(lastDate);
    AddMonthsStep(lastDate, 0);
    forall i | 0 < i < |p| ensures AddMonths(lastDate, i + 1) == NextMonth(AddMonths(lastDate, i)) {
      AddMonthsStep(lastDate, i);
    }
    forall i | 1 <= i <= |p| ensures DateLt(lastDate, AddMonths(lastDate, i)) {
      AddMonthsIncreasing(lastDate, 0, i);
    }
  }

  /** The worked example: from 2.10 in February 2024, two months give 2.142 in March and 2.18484 in April. */
  lemma ProjectionExample()
    ensures Projection(Date(2024, 2, 1), 2.10, 2)
         == [ForecastPoint(MonthLabel(2024, 3), None, Some(2.142), None),
             ForecastPoint(MonthLabel(2024, 4), None, Some(2.18484), None)]
  {
    assert Pow(GrowthFactor, 2) == 1.0404;
  }

  /**
   * The seam: the forecast is the historical points, each with only a
   * historical price, followed by `months` projected points, each with only a
   * projected price, the first of them the last monthly average times 1.02;
   * the marker is the label of the last historical point.
   */
  lemma PredictionSeam(rs: seq<PriceRecord>, months: int)
    requires Prediction(rs, months).Success?
    ensures var r := Prediction(rs, months).value;
            var h := History(rs);
            && |h| > 0
            && |r.forecastData| == |h| + (if months > 0 then months else 0)
            && r.forecastData[..|h|] == h
            && (forall i :: 0 <= i < |h| ==> r.forecastData[i].historicalPrice.Some? && r.forecastData[i].predictedPrice.None?)
            && (forall i :: |h| <= i < |r.forecastData| ==> r.forecastData[i].historicalPrice.None? && r.forecastData[i].predictedPrice.Some?)
            && (months > 0 ==> r.forecastData[|h|].predictedPrice == Some(h[|h| - 1].historicalPrice.value * GrowthFactor))
            && r.lastHistoricalDate == r.forecastData[|h| - 1].name
  {
    AssembleSeam(History(rs), months, FeatureRanking());
  }

  lemma {:induction false} AssembleSeam(h: seq<ForecastPoint>, months: int, ranking: seq<FeatureImportance>)
    requires |h| > 0
    requires forall p :: p in h ==> p.date.Some? && p.historicalPrice.Some? && p.predictedPrice.None?
    ensures var r := Assemble(h, months, ranking);
            && |r.forecastData| == |h| + (if months > 0 then months else 0)
            && r.forecastData[..|h|] == h
            && (forall i :: 0 <= i < |h| ==> r.forecastData[i].historicalPrice.Some? && r.forecastData[i].predictedPrice.None?)
            && (forall i :: |h| <= i < |r.forecastData| ==> r.forecastData[i].historicalPrice.None? && r.forecastData[i].predictedPrice.Some?)
            && (months > 0 ==> r.forecastData[|h|].predictedPrice == Some(h[|h| - 1].historicalPrice.value * GrowthFactor))
            && r.lastHistoricalDate == r.forecastData[|h| - 1].name
  {
    var last := h[|h| - 1];
    assert last in h;
    var tail := Projection(last.date.value, last.historicalPrice.GetOr(0.0), months);
    ProjectionCompounds(last.date.value, last.historicalPrice.GetOr(0.0), months);
    ConcatSides(h, tail);
    if months > 0 {
      assert (h + tail)[|h|] == tail[0];
      assert last.historicalPrice.GetOr(0.0) == last.historicalPrice.value;
      assert tail[0].predictedPrice.value == last.historicalPrice.value * GrowthFactor;
    }
  }

  /** Historical points followed by projected points: which price each index carries. */
  lemma {:induction false} ConcatSides(h: seq<ForecastPoint>, tail: seq<ForecastPoint>)
    requires forall p :: p in h ==> p.historicalPrice.Some? && p.predictedPrice.None?
    requires forall i :: 0 <= i < |tail| ==> tail[i].historicalPrice.None? && tail[i].predictedPrice.Some?
    ensures (h + tail)[..|h|] == h
    ensures forall i :: 0 <= i < |h| ==> (h + tail)[i].historicalPrice.Some? && (h + tail)[i].predictedPrice.None?
    ensures forall i :: |h| <= i < |h + tail| ==> (h + tail)[i].historicalPrice.None? && (h + tail)[i].predictedPrice.Some?
  {
    var fd := h + tail;
    forall i | |h| <= i < |fd| ensures fd[i].historicalPrice.None? && fd[i].predictedPrice.Some? {
      assert fd[i] == tail[i - |h|];
    }
    forall i | 0 <= i < |h| ensures fd[i].historicalPrice.Some? && fd[i].predictedPrice.None? {
      assert fd[i] == h[i] && h[i] in h;
    }
    assert fd[..|h|] == h;
  }

  /** With no months to project, the forecast is the history alone. */
  lemma NoMonthsNoProjection(rs: seq<PriceRecord>, months: int)
    requires months <= 0
    requires Prediction(rs, months).Success?
    ensures Prediction(rs, months).value.forecastData == History(rs)
  {
  }

  /** The marker names the latest month that holds a reported record. */
  lemma MarkerIsLatestMonth(rs: seq<PriceRecord>, months: int)
    requires MonthsReadable(rs)
    requires Prediction(rs, months).Success?
    ensures var h := History(rs);
            var d := h[|h| - 1].date.value;
            && Prediction(rs, months).value.lastHistoricalDate == LabelOf(d)
            && (exists i :: 0 <= i < |rs| && IsReported(rs[i]) && MonthOf(rs[i]) == Some(d))
            && (forall i :: 0 <= i < |rs| && IsReported(rs[i]) ==> DateLe(MonthOf(rs[i]).value, d))
  {
    PredictionMarker(rs, months);
    MarkerNamesLatestMonth(rs, Prediction(rs, months).value);
  }

  /** A result whose marker is the last historical label names the latest month that holds a reported record. */
  lemma MarkerNamesLatestMonth(rs: seq<PriceRecord>, r: PredictionResult)
    requires MonthsReadable(rs)
    requires |History(rs)| > 0
    requires r.lastHistoricalDate == History(rs)[|History(rs)| - 1].name
    ensures var h := History(rs);
            var d := h[|h| - 1].date.value;
            && r.lastHistoricalDate == LabelOf(d)
            && (exists i :: 0 <= i < |rs| && IsReported(rs[i]) && MonthOf(rs[i]) == Some(d))
            && (forall i :: 0 <= i < |rs| && IsReported(rs[i]) ==> DateLe(MonthOf(rs[i]).value, d))
  {
    var h := History(rs);
    HistoryPointIsMonthMean(rs, |h| - 1);
    LastHistoryIsLatestMonth(rs);
  }

  /** The marker is the label of the last historical point. */
  lemma PredictionMarker(rs: seq<PriceRecord>, months: int)
    requires Prediction(rs, months).Success?
    ensures |History(rs)| > 0
    ensures Prediction(rs, months).value.lastHistoricalDate == History(rs)[|History(rs)| - 1].name
  {
    PredictionSeam(rs, months);
    var r, h := Prediction(rs, months).value, History(rs);
    assert r.forecastData[..|h|][|h| - 1] == r.forecastData[|h| - 1];
  }

  /** The last historical point is the latest month that holds a reported record. */
  lemma LastHistoryIsLatestMonth(rs: seq<PriceRecord>)
    requires MonthsReadable(rs)
    requires |History(rs)| > 0
    ensures var h := History(rs);
            && h[|h| - 1].date.Some?
            && (exists i :: 0 <= i < |rs| && IsReported(rs[i]) && MonthOf(rs[i]) == h[|h| - 1].date)
            && (forall i :: 0 <= i < |rs| && IsReported(rs[i]) ==> DateLe(MonthOf(rs[i]).value, h[|h| - 1].date.value))
  {
    var h := History(rs);
    HistoryPointIsMonthMean(rs, |h| - 1);
    HistoryStrictlyAscending(rs);
    forall i | 0 <= i < |rs| && IsReported(rs[i]) ensures DateLe(MonthOf(rs[i]).value, h[|h| - 1].date.value) {
      HistoryCoversEveryMonth(rs, i);
      var j :| 0 <= j < |h| && h[j].date == MonthOf(rs[i]);
      if j < |h| - 1 {
        assert DateLt(h[j].date.value, h[|h| - 1].date.value);
      }
    }
  }

  lemma ImportanceOrderTotal()
    ensures IsTotalPreorder(LessOrAsImportant)
  {
  }

  /** The factor ranking is the five factors, rearranged into non-decreasing importance. */
  lemma FeatureRankingSorted()
    ensures multiset(FeatureRanking()) == multiset(Factors)
    ensures SortedBy(FeatureRanking(), LessOrAsImportant)
  {
    ImportanceOrderTotal();
    SortBySorted(Factors, LessOrAsImportant);
  }

  /** The ranking lists the factors from the least important to the most. */
  lemma FeatureRankingReversesFactors()
    ensures FeatureRanking() == Reversed(Factors)
  {
    FactorsDescending();
    SortByDescending(Factors, LessOrAsImportant);
  }

  /** The factors are written in strictly decreasing importance. */
  lemma FactorsDescending()
    ensures forall i, j :: 0 <= i < j < |Factors| ==> !LessOrAsImportant(Factors[i], Factors[j])
  {
  }

  lemma FeatureRankingValue()
    ensures FeatureRanking() == [
      FeatureImportance("Exportações", 5),
      FeatureImportance("Demanda Interna", 10),
      FeatureImportance("Clima", 15),
      FeatureImportance("Câmbio (Dólar)", 25),
      FeatureImportance("Custo da Ração", 45)]
  {
    FeatureRankingReversesFactors();
    ReversedFactors();
  }

  lemma ReversedFactors()
    ensures Reversed(Factors) == [Factors[4], Factors[3], Factors[2], Factors[1], Factors[0]]
  {
    forall i | 0 <= i < |Factors| ensures Reversed(Factors)[i] == Factors[|Factors| - 1 - i] {
      ReversedAt(Factors, i);
    }
  }
}
