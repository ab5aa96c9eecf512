/** The pure side of the monthly summary and the category statistics: the `categoryMap` and
    `dayMap` folds, their conversion to arrays, the day sort and the percentage. */
module ExpenseAggregation {
  import opened Wrappers
  import opened JsString
  import opened Calendar
  import opened JsMap
  import opened Sorting
  import opened Sums
  import opened ExpenseModel
  import opened ExpenseQueries

  /** The value `categoryMap` holds per category. */
  datatype Stats = Stats(total: real, count: nat)

  datatype CategoryBreakdown = CategoryBreakdown(category: string, total: real, count: nat)

  datatype DayTotal = DayTotal(date: string, total: real)

  datatype MonthlySummary = MonthlySummary(
    month: string,
    year: int,
    totalExpenses: real,
    categoryBreakdown: seq<CategoryBreakdown>,
    expensesByDay: seq<DayTotal>)

  datatype CategoryStats = CategoryStats(category: string, total: real, count: nat, percentage: real)

  // ---------------------------------------------------------------------------------------
  // The two folds, one `forEach` step at a time

  /** A category's running statistics after one more record of `amount`. */
  function Bump(st: Stats, amount: real): Stats {
    Stats(st.total + amount, st.count + 1)
  }

  /** One step of the category `forEach`: add the amount and one to the record's category. */
  function AddToCategoryMap(m: seq<Entry<string, Stats>>, category: string, amount: real): seq<Entry<string, Stats>> {
    Set(m, category, Bump(Get(m, category).GetOr(Stats(0.0, 0)), amount))
  }

  /** `categoryMap` after the `forEach` over `s`. */
  function CategoryMap(s: seq<Expense>): seq<Entry<string, Stats>> {
    if s == [] then [] else AddToCategoryMap(CategoryMap(s[..|s| - 1]), s[|s| - 1].category, s[|s| - 1].amount)
  }

  /** One step of the day `forEach`: add the amount to the record's day key. */
  function AddToDayMap(m: seq<Entry<string, real>>, key: string, amount: real): seq<Entry<string, real>> {
    Set(m, key, Get(m, key).GetOr(0.0) + amount)
  }

  /** The `YYYY-MM-DD` key a record is grouped under. */
  function DayOf(e: Expense): string {
    DayKey(e.date)
  }

  /** The map of amount totals per key after a `forEach` over `s`; `dayMap` groups by `DayOf`. */
  function Totals(s: seq<Expense>, key: Expense -> string): seq<Entry<string, real>> {
    if s == [] then [] else AddToDayMap(Totals(s[..|s| - 1], key), key(s[|s| - 1]), s[|s| - 1].amount)
  }

  /** `dayMap` after the `forEach` over `s`. */
  function DayMap(s: seq<Expense>): seq<Entry<string, real>> {
    Totals(s, DayOf)
  }

  // ---------------------------------------------------------------------------------------
  // Reference definitions the folds are proved against

  function CategoriesOf(s: seq<Expense>): (cs: seq<string>)
    ensures |cs| == |s| && forall i :: 0 <= i < |s| ==> cs[i] == s[i].category
  {
    if s == [] then [] else CategoriesOf(s[..|s| - 1]) + [s[|s| - 1].category]
  }

  function KeysOf(s: seq<Expense>, key: Expense -> string): (ks: seq<string>)
    ensures |ks| == |s| && forall i :: 0 <= i < |s| ==> ks[i] == key(s[i])
  {
    if s == [] then [] else KeysOf(s[..|s| - 1], key) + [key(s[|s| - 1])]
  }

  /** Each value once, in the order of its first occurrence. */
  function FirstOccurrences(ks: seq<string>): seq<string> {
    if ks == [] then []
    else
      var f := FirstOccurrences(ks[..|ks| - 1]);
      if ks[|ks| - 1] in f then f else f + [ks[|ks| - 1]]
  }

  /** The position of the first occurrence of `k`. */
  function FirstIndex(ks: seq<string>, k: string): (i: nat)
    requires k in ks
    ensures i < |ks| && ks[i] == k && k !in ks[..i]
  {
    if ks[0] == k then 0 else FirstIndex(ks[1..], k) + 1
  }

  /** The sum of the amounts of the records in category `c`. */
  function TotalFor(s: seq<Expense>, c: string): real {
    if s == [] then 0.0
    else TotalFor(s[..|s| - 1], c) + (if s[|s| - 1].category == c then s[|s| - 1].amount else 0.0)
  }

  /** The number of records in category `c`. */
  function CountFor(s: seq<Expense>, c: string): nat {
    if s == [] then 0
    else CountFor(s[..|s| - 1], c) + (if s[|s| - 1].category == c then 1 else 0)
  }

  /** The sum of the amounts of the records whose key is `k`. */
  function TotalForKey(s: seq<Expense>, key: Expense -> string, k: string): real {
    if s == [] then 0.0
    else TotalForKey(s[..|s| - 1], key, k) + (if key(s[|s| - 1]) == k then s[|s| - 1].amount else 0.0)
  }

  // ---------------------------------------------------------------------------------------
  // First occurrences

  /** The first occurrences are distinct, are exactly the values of `ks`, and come in the order
      in which each value first appears. */
  lemma {:induction false} FirstOccurrencesSpec(ks: seq<string>)
    ensures var f := FirstOccurrences(ks);
      && (forall i, j :: 0 <= i < j < |f| ==> f[i] != f[j])
      && (forall k :: k in f <==> k in ks)
      && (forall i, j :: 0 <= i < j < |f| ==> FirstIndex(ks, f[i]) < FirstIndex(ks, f[j]))
  {
    if ks != [] {
      var init, last := ks[..|ks| - 1], ks[|ks| - 1];
      FirstOccurrencesSpec(init);
      assert ks == init + [last];
      var f := FirstOccurrences(init);
      forall k | k in init ensures FirstIndex(ks, k) == FirstIndex(init, k) {
        FirstIndexOfPrefix(init, [last], k);
      }
      if last !in init {
        assert last !in f;
        FirstIndexOfLast(init, last);
        forall i | 0 <= i < |f| ensures FirstIndex(ks, f[i]) < FirstIndex(ks, last) {
          assert f[i] in init;
        }
      }
    }
  }

  lemma {:induction false} FirstIndexOfPrefix(a: seq<string>, b: seq<string>, k: string)
    requires k in a
    ensures FirstIndex(a + b, k) == FirstIndex(a, k)
  {
    assert (a + b)[0] == a[0];
    if a[0] != k {
      assert (a + b)[1..] == a[1..] + b;
      FirstIndexOfPrefix(a[1..], b, k);
    }
  }

  lemma FirstIndexOfLast(a: seq<string>, k: string)
    requires k !in a
    ensures FirstIndex(a + [k], k) == |a|
  {
    assert forall j :: 0 <= j < |a| ==> (a + [k])[j] == a[j];
  }

  // ---------------------------------------------------------------------------------------
  // What the category fold computes

  /** `categoryMap` holds each category once, in first-occurrence order. */
  lemma {:induction false} CategoryMapKeys(s: seq<Expense>)
    ensures DistinctKeys(CategoryMap(s))
    ensures Keys(CategoryMap(s)) == FirstOccurrences(CategoriesOf(s))
  {
    if s != [] {
      var init, e := s[..|s| - 1], s[|s| - 1];
      CategoryMapKeys(init);
      assert CategoriesOf(s)[..|s| - 1] == CategoriesOf(init);
      var m := CategoryMap(init);
      SetKeepsKeysDistinct(m, e.category, Bump(Get(m, e.category).GetOr(Stats(0.0, 0)), e.amount));
      SetKeys(m, e.category, Bump(Get(m, e.category).GetOr(Stats(0.0, 0)), e.amount));
    }
  }

  /** One step of the category fold reads back as the old entry plus the record. */
  lemma AddToCategoryMapGet(m: seq<Entry<string, Stats>>, category: string, amount: real, c: string)
    ensures Get(AddToCategoryMap(m, category, amount), c)
      == if c == category then Some(Bump(Get(m, c).GetOr(Stats(0.0, 0)), amount)) else Get(m, c)
  {
    GetAfterSet(m, category, Bump(Get(m, category).GetOr(Stats(0.0, 0)), amount), c);
  }

  /** For each category of `s`, `categoryMap` holds the sum of its amounts and the number of its records. */
  lemma {:induction false} CategoryMapGet(s: seq<Expense>, c: string)
    ensures Get(CategoryMap(s), c) == if c in CategoriesOf(s) then Some(Stats(TotalFor(s, c), CountFor(s, c))) else None
  {
    if s != [] {
      var init, e := s[..|s| - 1], s[|s| - 1];
      CategoryMapGet(init, c);
      assert CategoriesOf(s) == CategoriesOf(init) + [e.category];
      AddToCategoryMapGet(CategoryMap(init), e.category, e.amount, c);
      if c == e.category && c !in CategoriesOf(init) {
        ZeroForAbsentCategory(init, c);
      }
    }
  }

  lemma {:induction false} ZeroForAbsentCategory(s: seq<Expense>, c: string)
    requires c !in CategoriesOf(s)
    ensures TotalFor(s, c) == 0.0 && CountFor(s, c) == 0
  {
    if s != [] {
      assert CategoriesOf(s) == CategoriesOf(s[..|s| - 1]) + [s[|s| - 1].category];
      ZeroForAbsentCategory(s[..|s| - 1], c);
    }
  }

  function EntryTotal(e: Entry<string, Stats>): real { e.value.total }

  function EntryCount(e: Entry<string, Stats>): int { e.value.count }

  /** The category totals add up to the sum of all amounts, and the counts to the number of records. */
  lemma {:induction false} CategoryMapSums(s: seq<Expense>)
    ensures SumOf(CategoryMap(s), EntryTotal) == SumAmounts(s)
    ensures SumInt(CategoryMap(s), EntryCount) == |s|
  {
    if s != [] {
      var init, e := s[..|s| - 1], s[|s| - 1];
      CategoryMapSums(init);
      CategoryMapKeys(init);
      var m := CategoryMap(init);
      var v := Bump(Get(m, e.category).GetOr(Stats(0.0, 0)), e.amount);
      SumAfterSet(m, e.category, v, EntryTotal);
      CountAfterSet(m, e.category, v, EntryCount);
    }
  }

  // ---------------------------------------------------------------------------------------
  // What the day fold computes, for any grouping key

  /** Appending a value extends the first occurrences exactly when the value is new. */
  lemma FirstOccurrencesSnoc(ks: seq<string>, k: string)
    ensures FirstOccurrences(ks + [k]) == if k in FirstOccurrences(ks) then FirstOccurrences(ks) else FirstOccurrences(ks) + [k]
  {
    assert (ks + [k])[..|ks|] == ks;
  }

  lemma {:induction false} TotalsKeys(s: seq<Expense>, key: Expense -> string)
    ensures DistinctKeys(Totals(s, key))
    ensures Keys(Totals(s, key)) == FirstOccurrences(KeysOf(s, key))
  {
    if s != [] {
      var init, e := s[..|s| - 1], s[|s| - 1];
      var k := key(e);
      var m := Totals(init, key);
      var v := Get(m, k).GetOr(0.0) + e.amount;
      assert Totals(s, key) == Set(m, k, v);
      assert KeysOf(s, key) == KeysOf(init, key) + [k];
      TotalsKeys(init, key);
      FirstOccurrencesSnoc(KeysOf(init, key), k);
      SetKeepsKeysDistinct(m, k, v);
      SetKeys(m, k, v);
    }
  }

  lemma AddToDayMapGet(m: seq<Entry<string, real>>, key: string, amount: real, k: string)
    ensures Get(AddToDayMap(m, key, amount), k) == if k == key then Some(Get(m, k).GetOr(0.0) + amount) else Get(m, k)
  {
    var v := Get(m, key).GetOr(0.0) + amount;
    assert AddToDayMap(m, key, amount) == Set(m, key, v);
    GetAfterSet(m, key, v, k);
    if k == key {
      assert Get(m, k) == Get(m, key);
    }
  }

  /** For each key of `s`, the map holds the sum of the amounts of the records with that key. */
  lemma {:induction false} TotalsGet(s: seq<Expense>, key: Expense -> string, k: string)
    ensures Get(Totals(s, key), k) == if k in KeysOf(s, key) then Some(TotalForKey(s, key, k)) else None
  {
    if s != [] {
      var init, e := s[..|s| - 1], s[|s| - 1];
      TotalsGet(init, key, k);
      assert KeysOf(s, key) == KeysOf(init, key) + [key(e)];
      AddToDayMapGet(Totals(init, key), key(e), e.amount, k);
      if k == key(e) && k !in KeysOf(init, key) {
        ZeroForAbsentKey(init, key, k);
      }
    }
  }

  lemma {:induction false} ZeroForAbsentKey(s: seq<Expense>, key: Expense -> string, k: string)
    requires k !in KeysOf(s, key)
    ensures TotalForKey(s, key, k) == 0.0
  {
    if s != [] {
      assert KeysOf(s, key) == KeysOf(s[..|s| - 1], key) + [key(s[|s| - 1])];
      ZeroForAbsentKey(s[..|s| - 1], key, k);
    }
  }

  function EntryAmount(e: Entry<string, real>): real { e.value }

  /** The group totals add up to the sum of all amounts. */
  lemma {:induction false} TotalsSum(s: seq<Expense>, key: Expense -> string)
    ensures SumOf(Totals(s, key), EntryAmount) == SumAmounts(s)
  {
    if s != [] {
      var init, e := s[..|s| - 1], s[|s| - 1];
      TotalsSum(init, key);
      TotalsKeys(init, key);
      var m := Totals(init, key);
      SumAfterSet(m, key(e), Get(m, key(e)).GetOr(0.0) + e.amount, EntryAmount);
    }
  }

  // ---------------------------------------------------------------------------------------
  // The maps read entry by entry

  /** `categoryMap`'s entries: each category of `s` once, in first-occurrence order, with its total and count. */
  lemma CategoryMapEntries(s: seq<Expense>)
    ensures var m, cs := CategoryMap(s), FirstOccurrences(CategoriesOf(s));
      && |m| == |cs|
      && forall i :: 0 <= i < |m| ==> m[i] == Entry(cs[i], Stats(TotalFor(s, cs[i]), CountFor(s, cs[i])))
  {
    var m, cs := CategoryMap(s), FirstOccurrences(CategoriesOf(s));
    CategoryMapKeys(s);
    FirstOccurrencesSpec(CategoriesOf(s));
    forall i | 0 <= i < |m| ensures m[i] == Entry(cs[i], Stats(TotalFor(s, cs[i]), CountFor(s, cs[i]))) {
      assert m[i].key == Keys(m)[i];
      GetEntry(m, i);
      CategoryMapGet(s, m[i].key);
    }
  }

  /** The entries of a totals map: each key of `s` once, in first-occurrence order, with its total. */
  lemma TotalsEntries(s: seq<Expense>, key: Expense -> string)
    ensures var m, ks := Totals(s, key), FirstOccurrences(KeysOf(s, key));
      && |m| == |ks|
      && forall i :: 0 <= i < |m| ==> m[i] == Entry(ks[i], TotalForKey(s, key, ks[i]))
  {
    var m, ks := Totals(s, key), FirstOccurrences(KeysOf(s, key));
    TotalsKeys(s, key);
    FirstOccurrencesSpec(KeysOf(s, key));
    forall i | 0 <= i < |m| ensures m[i] == Entry(ks[i], TotalForKey(s, key, ks[i])) {
      assert m[i].key == Keys(m)[i];
      GetEntry(m, i);
      TotalsGet(s, key, m[i].key);
    }
  }

  lemma {:induction false} TotalForNonNegative(s: seq<Expense>, c: string)
    requires forall e :: e in s ==> e.amount >= 0.0
    ensures TotalFor(s, c) >= 0.0
  {
    if s != [] {
      assert s[|s| - 1] in s;
      TotalForNonNegative(s[..|s| - 1], c);
    }
  }

  // ---------------------------------------------------------------------------------------
  // The arrays built from the maps

  /** `Array.from(categoryMap.entries()).map(...)`. */
  function Breakdown(m: seq<Entry<string, Stats>>): (r: seq<CategoryBreakdown>)
    ensures |r| == |m| && forall i :: 0 <= i < |m| ==> r[i] == CategoryBreakdown(m[i].key, m[i].value.total, m[i].value.count)
  {
    if m == [] then [] else [CategoryBreakdown(m[0].key, m[0].value.total, m[0].value.count)] + Breakdown(m[1..])
  }

  /** `Array.from(dayMap.entries()).map(...)`. */
  function DayRows(m: seq<Entry<string, real>>): (r: seq<DayTotal>)
    ensures |r| == |m| && forall i :: 0 <= i < |m| ==> r[i] == DayTotal(m[i].key, m[i].value)
  {
    if m == [] then [] else [DayTotal(m[0].key, m[0].value)] + DayRows(m[1..])
  }

  /** The comparator `a.date.localeCompare(b.date)`, as "may come first". */
  function DateNotAfter(a: DayTotal, b: DayTotal): bool {
    !CodeLess(b.date, a.date)
  }

  lemma DateOrderIsTotalPreorder()
    ensures TotalPreorder(DateNotAfter)
  {
    forall a: DayTotal, b: DayTotal ensures DateNotAfter(a, b) || DateNotAfter(b, a) {
      if CodeLess(a.date, b.date) && CodeLess(b.date, a.date) {
        CodeLessTransitive(a.date, b.date, a.date);
        CodeLessIrreflexive(a.date);
      }
    }
    forall a: DayTotal, b: DayTotal, c: DayTotal | DateNotAfter(a, b) && DateNotAfter(b, c)
      ensures DateNotAfter(a, c)
    {
      if CodeLess(c.date, a.date) {
        if a.date != b.date && b.date != c.date {
          CodeLessTotal(a.date, b.date);
          CodeLessTotal(b.date, c.date);
          CodeLessTransitive(a.date, b.date, c.date);
          CodeLessTransitive(a.date, c.date, a.date);
          CodeLessIrreflexive(a.date);
        }
      }
    }
  }

  /** `.sort((a, b) => a.date.localeCompare(b.date))`. */
  function SortDays(ds: seq<DayTotal>): (r: seq<DayTotal>)
    ensures forall i, j :: 0 <= i < j < |r| ==> !CodeLess(r[j].date, r[i].date)
    ensures multiset(r) == multiset(ds)
  {
    DateOrderIsTotalPreorder();
    SortBy(ds, DateNotAfter)
  }

  /** A category's share of the grand total, in percent; zero when the grand total is not positive. */
  function Percentage(total: real, grand: real): (pct: real)
    ensures grand > 0.0 ==> pct * grand == total * 100.0
    ensures grand <= 0.0 ==> pct == 0.0
    ensures 0.0 <= total <= grand ==> 0.0 <= pct <= 100.0
  {
    if grand > 0.0 then total / grand * 100.0 else 0.0
  }

  /** The rows `getCategoryStats` returns for the entries of `categoryMap`. */
  function StatsRows(m: seq<Entry<string, Stats>>, grand: real): (r: seq<CategoryStats>)
    ensures |r| == |m|
    ensures forall i :: 0 <= i < |m| ==> r[i] == CategoryStats(m[i].key, m[i].value.total, m[i].value.count, Percentage(m[i].value.total, grand))
  {
    if m == [] then []
    else [CategoryStats(m[0].key, m[0].value.total, m[0].value.count, Percentage(m[0].value.total, grand))] + StatsRows(m[1..], grand)
  }

  function RowTotal(r: CategoryBreakdown): real { r.total }

  function RowCount(r: CategoryBreakdown): int { r.count }

  function DayAmount(d: DayTotal): real { d.total }

  function RowPercentage(r: CategoryStats): real { r.percentage }

  lemma {:induction false} PercentagesAdd(m: seq<Entry<string, Stats>>, grand: real)
    requires grand > 0.0
    ensures SumOf(StatsRows(m, grand), RowPercentage) == SumOf(m, EntryTotal) / grand * 100.0
  {
    if m != [] {
      PercentagesAdd(m[1..], grand);
      assert StatsRows(m, grand)[1..] == StatsRows(m[1..], grand);
      DivAdd(m[0].value.total, SumOf(m[1..], EntryTotal), grand);
    }
  }

  /** Helper for `PercentagesAdd`: percentages of one total add up. */
  lemma DivAdd(a: real, b: real, g: real)
    requires g > 0.0
    ensures a / g * 100.0 + b / g * 100.0 == (a + b) / g * 100.0
  {
  }

  // ---------------------------------------------------------------------------------------
  // The two results

  /** The summary `getMonthlySummary` builds from the records its window selects. */
  function Summarize(records: seq<Expense>, monthName: string, year: int): MonthlySummary {
    MonthlySummary(
      monthName,
      year,
      SumAmounts(records),
      Breakdown(CategoryMap(records)),
      SortDays(DayRows(DayMap(records))))
  }

  /** The rows `getCategoryStats` returns for the records its query selects. */
  function CategoryStatsOf(records: seq<Expense>): seq<CategoryStats> {
    StatsRows(CategoryMap(records), SumAmounts(records))
  }

  /** The breakdown lists each category of the records once, in first-occurrence order, with the
      sum of its amounts and its number of records; totals add up to the summary's total and counts
      to the number of records. */
  lemma SummaryBreakdown(records: seq<Expense>, monthName: string, year: int)
    ensures var r, cs := Summarize(records, monthName, year), FirstOccurrences(CategoriesOf(records));
      && r.month == monthName && r.year == year
      && r.totalExpenses == SumAmounts(records)
      && |r.categoryBreakdown| == |cs|
      && (forall i :: 0 <= i < |cs| ==>
            r.categoryBreakdown[i] == CategoryBreakdown(cs[i], TotalFor(records, cs[i]), CountFor(records, cs[i])))
      && SumOf(r.categoryBreakdown, RowTotal) == r.totalExpenses
      && SumInt(r.categoryBreakdown, RowCount) == |records|
  {
    var m := CategoryMap(records);
    CategoryMapEntries(records);
    CategoryMapSums(records);
    SumOfPointwise(Breakdown(m), RowTotal, m, EntryTotal);
    SumIntPointwise(Breakdown(m), RowCount, m, EntryCount);
  }

  /** Any arrangement of the day rows of a key-total map lists only keys of the records, each
      with the total of its records, and lists every key of the records. */
  lemma TotalsRows(s: seq<Expense>, key: Expense -> string, days: seq<DayTotal>)
    requires multiset(days) == multiset(DayRows(Totals(s, key)))
    ensures forall i :: 0 <= i < |days| ==> days[i].date in KeysOf(s, key) && days[i].total == TotalForKey(s, key, days[i].date)
    ensures forall k :: k in KeysOf(s, key) ==> exists i :: 0 <= i < |days| && days[i].date == k
  {
    var m, ks := Totals(s, key), FirstOccurrences(KeysOf(s, key));
    var rows := DayRows(m);
    TotalsEntries(s, key);
    FirstOccurrencesSpec(KeysOf(s, key));
    forall i | 0 <= i < |days|
      ensures days[i].date in KeysOf(s, key) && days[i].total == TotalForKey(s, key, days[i].date)
    {
      assert days[i] in multiset(rows);
      var p :| 0 <= p < |rows| && rows[p] == days[i];
      assert rows[p].date == ks[p];
    }
    forall k | k in KeysOf(s, key) ensures exists i :: 0 <= i < |days| && days[i].date == k {
      var p :| 0 <= p < |ks| && ks[p] == k;
      assert rows[p] in multiset(days);
      var i :| 0 <= i < |days| && days[i] == rows[p];
    }
  }

  /** Any arrangement of the day rows adds up to the total of the records. */
  lemma TotalsRowsSum(s: seq<Expense>, key: Expense -> string, days: seq<DayTotal>)
    requires multiset(days) == multiset(DayRows(Totals(s, key)))
    ensures SumOf(days, DayAmount) == SumAmounts(s)
  {
    var m := Totals(s, key);
    TotalsSum(s, key);
    SumOfPointwise(DayRows(m), DayAmount, m, EntryAmount);
    SumOfPermutation(days, DayRows(m), DayAmount);
  }

  /** Any arrangement of the day rows names each day once. */
  lemma TotalsRowsDistinct(s: seq<Expense>, key: Expense -> string, days: seq<DayTotal>)
    requires multiset(days) == multiset(DayRows(Totals(s, key)))
    ensures forall i, j :: 0 <= i < j < |days| ==> days[i].date != days[j].date
  {
    var m, ks := Totals(s, key), FirstOccurrences(KeysOf(s, key));
    var rows := DayRows(m);
    TotalsEntries(s, key);
    FirstOccurrencesSpec(KeysOf(s, key));
    TotalsRows(s, key, days);
    assert forall p, q :: 0 <= p < q < |rows| ==> rows[p] != rows[q] by {
      forall p, q | 0 <= p < q < |rows| ensures rows[p] != rows[q] {
        assert rows[p].date == ks[p] && rows[q].date == ks[q];
      }
    }
    forall i, j | 0 <= i < j < |days| ensures days[i].date != days[j].date {
      assert days[i].date == days[j].date ==> days[i] == days[j];
      DistinctOccursOnce(rows, days[i]);
      RepeatOccursTwice(days, i, j);
    }
  }

  /** In a sequence without repeats every value occurs at most once. */
  lemma {:induction false} DistinctOccursOnce<T>(s: seq<T>, x: T)
    requires forall i, j :: 0 <= i < j < |s| ==> s[i] != s[j]
    ensures multiset(s)[x] <= 1
  {
    if s != [] {
      assert s == [s[0]] + s[1..];
      DistinctOccursOnce(s[1..], x);
      if x == s[0] {
        assert x !in s[1..];
      }
    }
  }

  /** A value found at two positions occurs at least twice. */
  lemma RepeatOccursTwice<T>(s: seq<T>, i: nat, j: nat)
    requires i < j < |s|
    ensures s[i] == s[j] ==> multiset(s)[s[i]] >= 2
  {
    assert s == s[..j] + [s[j]] + s[j + 1..];
    assert s[i] in s[..j];
  }

  /** The day list has one row per calendar day that has records, each day once and in strictly
      ascending key order, each with the sum of that day's amounts; the day totals add up to the
      summary's total. */
  lemma SummaryDays(records: seq<Expense>, monthName: string, year: int)
    ensures var days, keys := Summarize(records, monthName, year).expensesByDay, KeysOf(records, DayOf);
      && (forall i, j :: 0 <= i < j < |days| ==> CodeLess(days[i].date, days[j].date))
      && (forall i, j :: 0 <= i < j < |days| ==> days[i].date != days[j].date)
      && (forall i :: 0 <= i < |days| ==> days[i].date in keys && days[i].total == TotalForKey(records, DayOf, days[i].date))
      && (forall k :: k in keys ==> exists i :: 0 <= i < |days| && days[i].date == k)
      && SumOf(days, DayAmount) == SumAmounts(records)
  {
    var days := SortDays(DayRows(DayMap(records)));
    TotalsRows(records, DayOf, days);
    TotalsRowsSum(records, DayOf, days);
    TotalsRowsDistinct(records, DayOf, days);
    forall i, j | 0 <= i < j < |days| ensures CodeLess(days[i].date, days[j].date) {
      CodeLessTotal(days[i].date, days[j].date);
    }
  }

  /** `getCategoryStats` lists each category once, in first-occurrence order, with its total, its
      count and its share of the grand total in percent. */
  lemma CategoryStatsRows(records: seq<Expense>)
    ensures var r, cs, grand := CategoryStatsOf(records), FirstOccurrences(CategoriesOf(records)), SumAmounts(records);
      && |r| == |cs|
      && forall i :: 0 <= i < |cs| ==>
           && r[i].category == cs[i]
           && r[i].total == TotalFor(records, cs[i])
           && r[i].count == CountFor(records, cs[i])
           && r[i].percentage == (if grand > 0.0 then TotalFor(records, cs[i]) / grand * 100.0 else 0.0)
  {
    CategoryMapEntries(records);
  }

  /** With a positive grand total the percentages add up to 100; with none they are all zero;
      with non-negative amounts each lies between 0 and 100. */
  lemma CategoryStatsPercentages(records: seq<Expense>)
    ensures var r, grand := CategoryStatsOf(records), SumAmounts(records);
      && (grand > 0.0 ==> SumOf(r, RowPercentage) == 100.0)
      && (grand <= 0.0 ==> forall i :: 0 <= i < |r| ==> r[i].percentage == 0.0)
      && ((forall e :: e in records ==> e.amount >= 0.0) ==>
            forall i :: 0 <= i < |r| ==> 0.0 <= r[i].percentage <= 100.0)
  {
    var m, grand := CategoryMap(records), SumAmounts(records);
    if grand > 0.0 {
      CategoryMapSums(records);
      PercentagesSumTo100(m, grand);
    } else {
      PercentagesZero(m, grand);
    }
    if forall e :: e in records ==> e.amount >= 0.0 {
      EntriesWithinTotal(records);
      RowsBounded(m, grand);
    }
  }

  /** Percentages of totals that add up to a positive grand total add up to 100. */
  lemma PercentagesSumTo100(m: seq<Entry<string, Stats>>, grand: real)
    requires grand > 0.0 && SumOf(m, EntryTotal) == grand
    ensures SumOf(StatsRows(m, grand), RowPercentage) == 100.0
  {
    PercentagesAdd(m, grand);
    DivSelf(grand);
  }

  /** Helper for `PercentagesSumTo100`: the total is 100 percent of itself. */
  lemma DivSelf(g: real)
    requires g > 0.0
    ensures g / g * 100.0 == 100.0
  {
  }

  /** Without a positive grand total every percentage is 0. */
  lemma PercentagesZero(m: seq<Entry<string, Stats>>, grand: real)
    requires grand <= 0.0
    ensures forall i :: 0 <= i < |m| ==> StatsRows(m, grand)[i].percentage == 0.0
  {
  }

  /** With non-negative amounts, every category total lies between 0 and the grand total. */
  lemma EntriesWithinTotal(records: seq<Expense>)
    requires forall e :: e in records ==> e.amount >= 0.0
    ensures forall i :: 0 <= i < |CategoryMap(records)| ==>
      0.0 <= CategoryMap(records)[i].value.total <= SumAmounts(records)
  {
    var m := CategoryMap(records);
    CategoryMapSums(records);
    CategoryMapEntries(records);
    forall x | x in m ensures EntryTotal(x) >= 0.0 {
      TotalForNonNegative(records, x.key);
    }
    SumOfNonNegative(m, EntryTotal);
  }

  /** Totals between 0 and the grand total give percentages between 0 and 100. */
  lemma RowsBounded(m: seq<Entry<string, Stats>>, grand: real)
    requires forall i :: 0 <= i < |m| ==> 0.0 <= m[i].value.total <= grand
    ensures forall i :: 0 <= i < |m| ==> 0.0 <= StatsRows(m, grand)[i].percentage <= 100.0
  {
    forall i | 0 <= i < |m| ensures 0.0 <= StatsRows(m, grand)[i].percentage <= 100.0 {
      assert StatsRows(m, grand)[i].percentage == Percentage(m[i].value.total, grand);
    }
  }
}
