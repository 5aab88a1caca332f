/** The two charts of FinancialChart.tsx. The cash-flow chart groups the
    transactions by date into `{ date, entrada, saida }` points (income, and
    everything that is not income) and sorts the points by date; the pie
    chart groups the amounts by category, whatever their kind.

    Both groupings are a `reduce` into a plain object. A JavaScript object
    used as a dictionary is modelled as a map together with the order of its
    keys: dates and category labels are not integer-like, so `Object.keys`
    and `Object.values` list them in the order the properties were created. */
module FinancialChart {
  import opened Types
  import opened Seqs
  import opened DashboardCards

  /** One point of the cash-flow chart. */
  datatype DayPoint = DayPoint(date: string, entrada: int, saida: int)

  /** One slice of the category chart: `{ name, value }`. */
  datatype CategorySlice = CategorySlice(name: ServiceCategory, value: int)

  function DateOf(t: Transaction): string { t.date }

  function CategoryOf(t: Transaction): ServiceCategory { t.category }

  function Entrada(p: DayPoint): int { p.entrada }

  function Saida(p: DayPoint): int { p.saida }

  function SliceValue(c: CategorySlice): int { c.value }

  /** A JavaScript object used as a dictionary: its entries, and its keys
      in the order the properties were created. */
  datatype Dict<K, V> = Dict(keys: seq<K>, entries: map<K, V>)

  /** `acc[k] = v`: a key the object lacks is added after the others. */
  function Put<K(==), V>(acc: Dict<K, V>, k: K, v: V): (r: Dict<K, V>)
    ensures r.entries == acc.entries[k := v]
    ensures k in acc.entries ==> r.keys == acc.keys
    ensures k !in acc.entries ==> r.keys == acc.keys + [k]
  {
    Dict(if k in acc.entries then acc.keys else acc.keys + [k], acc.entries[k := v])
  }

  /** The points of `dailyData` once the reduce has visited `ts`: one per
      date that occurs, holding that date's income and outflow. */
  function DailyMap(ts: seq<Transaction>): map<string, DayPoint> {
    map d | d in KeySet(ts, DateOf) ::
      DayPoint(d, GroupSum(ts, DateOf, IncomeAmount, d), GroupSum(ts, DateOf, OutflowAmount, d))
  }

  /** The object `dailyData` once the reduce has visited `ts`. */
  function Daily(ts: seq<Transaction>): Dict<string, DayPoint> {
    Dict(KeysOf(ts, DateOf), DailyMap(ts))
  }

  /** The callback of the daily reduce: the record's date gets a zero point
      if it has none, then the amount goes to `entrada` for income and to
      `saida` otherwise. */
  function DailyStep(acc: Dict<string, DayPoint>, t: Transaction): (r: Dict<string, DayPoint>)
    ensures r.entries == acc.entries[t.date := Credit(if t.date in acc.entries then acc.entries[t.date] else DayPoint(t.date, 0, 0), t)]
    ensures t.date in acc.entries ==> r.keys == acc.keys
    ensures t.date !in acc.entries ==> r.keys == acc.keys + [t.date]
  {
    var acc' := if t.date in acc.entries then acc else Put(acc, t.date, DayPoint(t.date, 0, 0));
    Put(acc', t.date, Credit(acc'.entries[t.date], t))
  }

  /** `acc[date].entrada += amount` for income, `acc[date].saida += amount`
      otherwise: each side grows by the record's share of it, and the two
      together by the whole amount. */
  function Credit(p: DayPoint, t: Transaction): (r: DayPoint)
    ensures r.date == p.date
    ensures r.entrada == p.entrada + IncomeAmount(t) && r.saida == p.saida + OutflowAmount(t)
    ensures r.entrada + r.saida == p.entrada + p.saida + t.amount
  {
    if t.kind == Income then p.(entrada := p.entrada + t.amount) else p.(saida := p.saida + t.amount)
  }

  /** The entries after one more record are the callback's entries. */
  lemma DailyMapSnoc(s: seq<Transaction>, t: Transaction)
    ensures DailyMap(s + [t]) == DailyStep(Daily(s), t).entries
  {
    var m, m' := DailyMap(s), DailyMap(s + [t]);
    var p := Credit(if t.date in m then m[t.date] else DayPoint(t.date, 0, 0), t);
    var stepped := m[t.date := p];
    assert m'.Keys == stepped.Keys by {
      assert m.Keys == KeySet(s, DateOf);
      assert m'.Keys == KeySet(s + [t], DateOf);
      KeySetSnoc(s, t, DateOf);
    }
    forall d | d in m'
      ensures m'[d] == stepped[d]
    {
      DailyPointSnoc(s, t, d);
    }
    assert m' == stepped;
  }

  /** One date's point after one more record. */
  lemma DailyPointSnoc(s: seq<Transaction>, t: Transaction, d: string)
    requires d in DailyMap(s + [t])
    ensures var m := DailyMap(s);
      DailyMap(s + [t])[d] ==
        if d == t.date then Credit(if t.date in m then m[t.date] else DayPoint(t.date, 0, 0), t) else m[d]
  {
    KeySetSnoc(s, t, DateOf);
    GroupSumSnoc(s, t, DateOf, IncomeAmount, d);
    GroupSumSnoc(s, t, DateOf, OutflowAmount, d);
    if d == t.date && t.date !in KeySet(s, DateOf) {
      GroupSumAbsent(s, DateOf, IncomeAmount, d);
      GroupSumAbsent(s, DateOf, OutflowAmount, d);
    }
  }

  /** Reducing one more record is one more call of the callback. */
  lemma DailySnoc(s: seq<Transaction>, t: Transaction)
    ensures Daily(s + [t]) == DailyStep(Daily(s), t)
  {
    DailyMapSnoc(s, t);
    KeysOfSnoc(s, t, DateOf);
  }

  /** `dailyData`: visits the transactions in order, calling the callback
      on each. */
  method DailyData(ts: seq<Transaction>) returns (daily: Dict<string, DayPoint>)
    ensures daily == Daily(ts)
  {
    daily := Dict([], map[]);
    assert Daily(ts[..0]) == daily by {
      assert ts[..0] == [];
      assert KeySet(ts[..0], DateOf) == {};
    }
    for i := 0 to |ts|
      invariant daily == Daily(ts[..i])
    {
      assert ts[..i + 1] == ts[..i] + [ts[i]];
      DailySnoc(ts[..i], ts[i]);
      daily := DailyStep(daily, ts[i]);
    }
    assert ts[..|ts|] == ts;
  }

  /** Comparison of ISO 'YYYY-MM-DD' dates: character by character, which
      for dates of that form is their order in time. */
  predicate DateLe(a: string, b: string)
    ensures a <= b ==> DateLe(a, b)
    decreases |a|
  {
    a == [] || (b != [] && (a[0] < b[0] || (a[0] == b[0] && DateLe(a[1..], b[1..]))))
  }

  lemma {:induction false} DateLeTotal(a: string, b: string)
    ensures DateLe(a, b) || DateLe(b, a)
    decreases |a|
  {
    if a != [] && b != [] && a[0] == b[0] {
      DateLeTotal(a[1..], b[1..]);
    }
  }

  /** Two dates each no later than the other are the same date, so a list
      of distinct dates has only one sorted order. */
  lemma {:induction false} DateLeAntisymmetric(a: string, b: string)
    requires DateLe(a, b) && DateLe(b, a)
    ensures a == b
    decreases |a|
  {
    if a != [] && b != [] {
      DateLeAntisymmetric(a[1..], b[1..]);
      assert a == [a[0]] + a[1..] && b == [b[0]] + b[1..];
    }
  }

  lemma {:induction false} DateLeTransitive(a: string, b: string, c: string)
    requires DateLe(a, b) && DateLe(b, c)
    ensures DateLe(a, c)
    decreases |a|
  {
    if a != [] && a[0] == b[0] && b[0] == c[0] {
      DateLeTransitive(a[1..], b[1..], c[1..]);
    }
  }

  predicate SortedByDate(ps: seq<DayPoint>) {
    forall i, j | 0 <= i < j < |ps| :: DateLe(ps[i].date, ps[j].date)
  }

  /** Puts `p` into the sorted list `ps` before the first point it does not
      follow. */
  function InsertByDate(p: DayPoint, ps: seq<DayPoint>): (r: seq<DayPoint>)
    requires SortedByDate(ps)
    ensures SortedByDate(r)
    ensures multiset(r) == multiset(ps) + multiset{p}
    decreases |ps|
  {
    if ps == [] then [p]
    else if DateLe(p.date, ps[0].date) then
      InsertInFront(p, ps);
      [p] + ps
    else
      var rest := InsertByDate(p, ps[1..]);
      InsertBehind(p, ps, rest);
      [ps[0]] + rest
  }

  /** A point no later than every point of a sorted list may go in front. */
  lemma SortedCons(x: DayPoint, ps: seq<DayPoint>)
    requires SortedByDate(ps)
    requires forall j | 0 <= j < |ps| :: DateLe(x.date, ps[j].date)
    ensures SortedByDate([x] + ps)
  {
    var r := [x] + ps;
    forall i, j | 0 <= i < j < |r| ensures DateLe(r[i].date, r[j].date) {
      if i > 0 {
        assert r[i] == ps[i - 1] && r[j] == ps[j - 1];
      }
    }
  }

  lemma InsertInFront(p: DayPoint, ps: seq<DayPoint>)
    requires SortedByDate(ps) && ps != [] && DateLe(p.date, ps[0].date)
    ensures SortedByDate([p] + ps)
  {
    forall j | 0 <= j < |ps| ensures DateLe(p.date, ps[j].date) {
      if j > 0 { DateLeTransitive(p.date, ps[0].date, ps[j].date); }
    }
    SortedCons(p, ps);
  }

  lemma InsertBehind(p: DayPoint, ps: seq<DayPoint>, rest: seq<DayPoint>)
    requires SortedByDate(ps) && ps != [] && !DateLe(p.date, ps[0].date)
    requires SortedByDate(rest) && multiset(rest) == multiset(ps[1..]) + multiset{p}
    ensures SortedByDate([ps[0]] + rest)
    ensures multiset([ps[0]] + rest) == multiset(ps) + multiset{p}
  {
    assert ps == [ps[0]] + ps[1..];
    forall j | 0 <= j < |rest| ensures DateLe(ps[0].date, rest[j].date) {
      var x := rest[j];
      assert x in multiset(rest);
      if x == p {
        DateLeTotal(p.date, ps[0].date);
      } else {
        assert x in ps[1..];
      }
    }
    SortedCons(ps[0], rest);
  }

  /** The `sort` of `chartData`: ascending by date, the same points. */
  function SortByDate(ps: seq<DayPoint>): (r: seq<DayPoint>)
    ensures SortedByDate(r)
    ensures multiset(r) == multiset(ps)
    decreases |ps|
  {
    if ps == [] then []
    else
      assert ps == [ps[0]] + ps[1..];
      InsertByDate(ps[0], SortByDate(ps[1..]))
  }

  /** `chartData`: the values of `dailyData`, sorted by date. */
  function ChartData(daily: Dict<string, DayPoint>): (r: seq<DayPoint>)
    requires forall d | d in daily.keys :: d in daily.entries
    ensures SortedByDate(r)
    ensures multiset(r) == multiset(ValuesAt(daily.keys, daily.entries))
  {
    SortByDate(ValuesAt(daily.keys, daily.entries))
  }

  /** The cash-flow chart drawn for the transactions `ts`. */
  function ChartOf(ts: seq<Transaction>): seq<DayPoint> {
    ChartData(Daily(ts))
  }

  /** The chart holds the same points as `Object.values(dailyData)`. */
  lemma ChartPoints(ts: seq<Transaction>)
    ensures forall p :: p in ChartOf(ts) <==> p in ValuesAt(Daily(ts).keys, Daily(ts).entries)
  {
    var values, chart := ValuesAt(Daily(ts).keys, Daily(ts).entries), ChartOf(ts);
    forall p
      ensures p in chart <==> p in values
    {
      assert p in chart <==> p in multiset(chart);
      assert p in values <==> p in multiset(values);
    }
  }

  /** Points laid out one per date, then reordered: there is a point for
      exactly those dates, and no date has two when the dates are
      distinct. */
  lemma PermutedPoints(dates: seq<string>, points: seq<DayPoint>, chart: seq<DayPoint>)
    requires |points| == |dates|
    requires forall i | 0 <= i < |points| :: points[i].date == dates[i]
    requires multiset(chart) == multiset(points)
    ensures forall d :: d in dates <==> exists i :: 0 <= i < |chart| && chart[i].date == d
    ensures NoDup(dates) ==> forall i, j | 0 <= i < j < |chart| :: chart[i].date != chart[j].date
  {
    forall d | d in dates
      ensures exists i :: 0 <= i < |chart| && chart[i].date == d
    {
      var k :| 0 <= k < |dates| && dates[k] == d;
      assert points[k] in multiset(chart);
      var i :| 0 <= i < |chart| && chart[i] == points[k];
    }
    forall i | 0 <= i < |chart|
      ensures chart[i].date in dates
    {
      assert chart[i] in multiset(points);
      var k :| 0 <= k < |points| && points[k] == chart[i];
    }
    if NoDup(dates) {
      assert NoDup(points);
      NoDupPermutation(points, chart);
      forall i, j | 0 <= i < j < |chart|
        ensures chart[i].date != chart[j].date
      {
        assert chart[i] in multiset(points) && chart[j] in multiset(points);
        var k1 :| 0 <= k1 < |points| && points[k1] == chart[i];
        var k2 :| 0 <= k2 < |points| && points[k2] == chart[j];
        assert k1 != k2;
      }
    }
  }

  /** The points of `Object.values(dailyData)` are laid out one per date. */
  lemma DailyValues(ts: seq<Transaction>)
    ensures var daily := Daily(ts);
      forall i | 0 <= i < |ValuesAt(daily.keys, daily.entries)| :: ValuesAt(daily.keys, daily.entries)[i].date == daily.keys[i]
  {
  }

  /** The chart has a point for a date exactly when some transaction has
      that date. */
  lemma ChartCoversDates(ts: seq<Transaction>)
    ensures forall d :: d in KeySet(ts, DateOf) <==> exists i :: 0 <= i < |ChartOf(ts)| && ChartOf(ts)[i].date == d
  {
    var daily := Daily(ts);
    DailyValues(ts);
    PermutedPoints(daily.keys, ValuesAt(daily.keys, daily.entries), ChartOf(ts));
  }

  /** No date has two points. */
  lemma ChartDatesDistinct(ts: seq<Transaction>)
    ensures forall i, j | 0 <= i < j < |ChartOf(ts)| :: ChartOf(ts)[i].date != ChartOf(ts)[j].date
  {
    var daily := Daily(ts);
    DailyValues(ts);
    PermutedPoints(daily.keys, ValuesAt(daily.keys, daily.entries), ChartOf(ts));
  }

  /** A date's point holds the income of that date as `entrada` and the rest
      of that date's amounts as `saida`. */
  lemma ChartPointSums(ts: seq<Transaction>)
    ensures forall p | p in ChartOf(ts) ::
      p.entrada == GroupSum(ts, DateOf, IncomeAmount, p.date) && p.saida == GroupSum(ts, DateOf, OutflowAmount, p.date)
  {
    ChartPoints(ts);
  }

  /** Summed over all days, `entrada` is the dashboard's total income and
      `saida` the total of all other amounts, which is the total expense. */
  lemma ChartTotalsMatchCards(ts: seq<Transaction>)
    ensures Total(ChartOf(ts), Entrada) == TotalIncome(ts)
    ensures Total(ChartOf(ts), Saida) == Total(ts, OutflowAmount) == TotalExpense(ts)
  {
    var dates, m := Daily(ts).keys, Daily(ts).entries;
    var values := ValuesAt(dates, m);
    TotalPermutation(ChartOf(ts), values, Entrada);
    TotalPermutation(ChartOf(ts), values, Saida);
    TotalOfValues(dates, m, Entrada, ts, DateOf, IncomeAmount);
    TotalOfValues(dates, m, Saida, ts, DateOf, OutflowAmount);
    AcrossCovers(dates, ts, DateOf, IncomeAmount);
    AcrossCovers(dates, ts, DateOf, OutflowAmount);
  }

  /** The sums of `categoryDataRaw` once the reduce has visited `ts`: the
      summed amount of each category that occurs. */
  function CategoryMap(ts: seq<Transaction>): map<ServiceCategory, int> {
    map c | c in KeySet(ts, CategoryOf) :: GroupSum(ts, CategoryOf, AmountOf, c)
  }

  /** The object `categoryDataRaw` once the reduce has visited `ts`. */
  function CategoryRaw(ts: seq<Transaction>): Dict<ServiceCategory, int> {
    Dict(KeysOf(ts, CategoryOf), CategoryMap(ts))
  }

  /** The callback of the category reduce: the entry is set to 0 when it is
      falsy, that is absent or holding 0, as `!acc[curr.category]` tests,
      and then the amount is added to it. Resetting an entry that holds 0
      changes neither its value nor its place among the keys, so the entry
      ends up as its old value (0 when absent) plus the amount. */
  function CategoryStep(acc: Dict<ServiceCategory, int>, t: Transaction): (r: Dict<ServiceCategory, int>)
    ensures r.entries == acc.entries[t.category := (if t.category in acc.entries then acc.entries[t.category] else 0) + t.amount]
    ensures t.category in acc.entries ==> r.keys == acc.keys
    ensures t.category !in acc.entries ==> r.keys == acc.keys + [t.category]
  {
    var c := t.category;
    var acc' := if c !in acc.entries || acc.entries[c] == 0 then Put(acc, c, 0) else acc;
    Put(acc', c, acc'.entries[c] + t.amount)
  }

  /** The entries after one more record are the callback's entries. */
  lemma CategoryMapSnoc(s: seq<Transaction>, t: Transaction)
    ensures CategoryMap(s + [t]) == CategoryStep(CategoryRaw(s), t).entries
  {
    var m' := CategoryMap(s + [t]);
    var step := CategoryStep(CategoryRaw(s), t);
    KeySetSnoc(s, t, CategoryOf);
    if t.category !in KeySet(s, CategoryOf) {
      GroupSumAbsent(s, CategoryOf, AmountOf, t.category);
    }
    forall c | c in m'
      ensures m'[c] == step.entries[c]
    {
      GroupSumSnoc(s, t, CategoryOf, AmountOf, c);
    }
  }

  /** Reducing one more record is one more call of the callback. */
  lemma CategorySnoc(s: seq<Transaction>, t: Transaction)
    ensures CategoryRaw(s + [t]) == CategoryStep(CategoryRaw(s), t)
  {
    CategoryMapSnoc(s, t);
    KeysOfSnoc(s, t, CategoryOf);
  }

  /** `categoryDataRaw`: visits the transactions in order, calling the
      callback on each. */
  method CategoryTotals(ts: seq<Transaction>) returns (raw: Dict<ServiceCategory, int>)
    ensures raw == CategoryRaw(ts)
  {
    raw := Dict([], map[]);
    assert CategoryRaw(ts[..0]) == raw by {
      assert ts[..0] == [];
      assert KeySet(ts[..0], CategoryOf) == {};
    }
    for i := 0 to |ts|
      invariant raw == CategoryRaw(ts[..i])
    {
      assert ts[..i + 1] == ts[..i] + [ts[i]];
      CategorySnoc(ts[..i], ts[i]);
      raw := CategoryStep(raw, ts[i]);
    }
    assert ts[..|ts|] == ts;
  }

  /** `categoryData`: `Object.keys(categoryDataRaw).map(key => ({ name: key,
      value: categoryDataRaw[key] }))`. */
  function CategoryData(raw: Dict<ServiceCategory, int>): (r: seq<CategorySlice>)
    requires forall c | c in raw.keys :: c in raw.entries
    ensures |r| == |raw.keys|
    ensures forall i | 0 <= i < |r| :: r[i] == CategorySlice(raw.keys[i], raw.entries[raw.keys[i]])
  {
    seq(|raw.keys|, i requires 0 <= i < |raw.keys| => CategorySlice(raw.keys[i], raw.entries[raw.keys[i]]))
  }

  /** The category chart drawn for the transactions `ts`. */
  function CategoryChartOf(ts: seq<Transaction>): seq<CategorySlice> {
    CategoryData(CategoryRaw(ts))
  }

  /** Slice `i` is the `i`-th category that occurs, with its sum. */
  lemma CategoryChartLayout(ts: seq<Transaction>)
    ensures var keys := KeysOf(ts, CategoryOf);
      && |CategoryChartOf(ts)| == |keys|
      && forall i | 0 <= i < |keys| :: CategoryChartOf(ts)[i] == CategorySlice(keys[i], GroupSum(ts, CategoryOf, AmountOf, keys[i]))
  {
  }

  /** The category chart has a slice for a category exactly when some
      transaction has that category. */
  lemma CategoryChartCovers(ts: seq<Transaction>)
    ensures forall c :: c in KeySet(ts, CategoryOf) <==> exists i :: 0 <= i < |CategoryChartOf(ts)| && CategoryChartOf(ts)[i].name == c
  {
    var keys, slices := KeysOf(ts, CategoryOf), CategoryChartOf(ts);
    CategoryChartLayout(ts);
    forall c | c in KeySet(ts, CategoryOf)
      ensures exists i :: 0 <= i < |slices| && slices[i].name == c
    {
      var i :| 0 <= i < |keys| && keys[i] == c;
      assert slices[i].name == c;
    }
    forall i | 0 <= i < |slices|
      ensures slices[i].name in KeySet(ts, CategoryOf)
    {
      assert slices[i].name == keys[i];
    }
  }

  /** No category has two slices, and the slices come in the order of each
      category's first occurrence. */
  lemma CategoryChartOrder(ts: seq<Transaction>)
    ensures forall i, j | 0 <= i < j < |CategoryChartOf(ts)| ::
      && CategoryChartOf(ts)[i].name != CategoryChartOf(ts)[j].name
      && FirstIndex(ts, CategoryOf, CategoryChartOf(ts)[i].name) < FirstIndex(ts, CategoryOf, CategoryChartOf(ts)[j].name)
  {
    var keys, slices := KeysOf(ts, CategoryOf), CategoryChartOf(ts);
    CategoryChartLayout(ts);
    KeysInFirstOccurrenceOrder(ts, CategoryOf);
    forall i, j | 0 <= i < j < |slices|
      ensures slices[i].name == keys[i] && slices[j].name == keys[j]
    {
    }
  }

  /** A slice's value is the sum of its category's amounts, income and
      expense alike. */
  lemma CategoryChartValues(ts: seq<Transaction>)
    ensures forall i | 0 <= i < |CategoryChartOf(ts)| ::
      CategoryChartOf(ts)[i].value == GroupSum(ts, CategoryOf, AmountOf, CategoryChartOf(ts)[i].name)
  {
    CategoryChartLayout(ts);
  }

  /** The slices add up to the sum of all amounts. */
  lemma CategoryValuesAddUp(ts: seq<Transaction>)
    ensures Total(CategoryChartOf(ts), SliceValue) == Total(ts, AmountOf)
  {
    var categories := KeysOf(ts, CategoryOf);
    SlicesAddUp(categories, CategoryMap(ts), ts);
    AcrossCovers(categories, ts, CategoryOf, AmountOf);
  }

  lemma {:induction false} SlicesAddUp(categories: seq<ServiceCategory>, acc: map<ServiceCategory, int>, ts: seq<Transaction>)
    requires forall c | c in categories :: c in acc && acc[c] == GroupSum(ts, CategoryOf, AmountOf, c)
    ensures Total(CategoryData(Dict(categories, acc)), SliceValue) == Across(categories, ts, CategoryOf, AmountOf)
    decreases |categories|
  {
    if categories != [] {
      var init := categories[..|categories| - 1];
      var slices := CategoryData(Dict(categories, acc));
      SlicesAddUp(init, acc, ts);
      assert slices == CategoryData(Dict(init, acc)) + [slices[|slices| - 1]];
    }
  }

  /** Both charts, as FinancialChart.tsx computes them. */
  method Charts(ts: seq<Transaction>) returns (chartData: seq<DayPoint>, categoryData: seq<CategorySlice>)
    ensures chartData == ChartOf(ts)
    ensures categoryData == CategoryChartOf(ts)
  {
    var daily := DailyData(ts);
    chartData := ChartData(daily);
    var raw := CategoryTotals(ts);
    categoryData := CategoryData(raw);
  }
}
