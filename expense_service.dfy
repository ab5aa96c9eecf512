/** The expense service over a store of expense documents: create, list, look up, update and
    delete one user's expenses, and the monthly summary and category statistics. */
module ExpenseService {
  import opened Wrappers
  import opened Calendar
  import opened JsMap
  import opened ExpenseModel
  import opened ExpenseQueries
  import opened ExpenseAggregation
  import opened Fields

  /** Why `findOneAndUpdate` refused an update: a given date that cannot be cast, or a supplied
      field that fails its update validator. */
  datatype UpdateError = Uncastable(cast: CastError) | Invalid(validation: ValidationError)

  /** The `forEach` that fills `categoryMap`. */
  method CollectCategories(records: seq<Expense>) returns (categoryMap: seq<Entry<string, Stats>>)
    ensures categoryMap == CategoryMap(records)
  {
    categoryMap := [];
    var i := 0;
    while i < |records|
      invariant 0 <= i <= |records|
      invariant categoryMap == CategoryMap(records[..i])
    {
      var exp := records[i];
      assert records[..i + 1][..i] == records[..i];
      var existing := Get(categoryMap, exp.category).GetOr(Stats(0.0, 0));
      categoryMap := Set(categoryMap, exp.category, Stats(existing.total + exp.amount, existing.count + 1));
      i := i + 1;
    }
    assert records[..i] == records;
  }

  /** The `forEach` that fills `dayMap`, where `key` gives a record's `dateStr`. */
  method CollectTotals(records: seq<Expense>, key: Expense -> string) returns (dayMap: seq<Entry<string, real>>)
    ensures dayMap == Totals(records, key)
  {
    dayMap := [];
    var i := 0;
    while i < |records|
      invariant 0 <= i <= |records|
      invariant dayMap == Totals(records[..i], key)
    {
      var exp := records[i];
      assert records[..i + 1][..i] == records[..i];
      var dateStr := key(exp);
      dayMap := Set(dayMap, dateStr, Get(dayMap, dateStr).GetOr(0.0) + exp.amount);
      i := i + 1;
    }
    assert records[..i] == records;
  }

  /** Every stored document conforms to the schema and has its own id, below `nextId`. */
  predicate Stored(s: seq<Expense>, nextId: nat) {
    && IdsDistinct(s)
    && forall i :: 0 <= i < |s| ==> s[i].id < nextId && Conforms(s[i])
  }

  /** A conforming document stored under the next id keeps the store well-formed. */
  lemma AppendKeepsStored(s: seq<Expense>, nextId: nat, e: Expense)
    requires Stored(s, nextId) && e.id == nextId && Conforms(e)
    ensures Stored(s + [e], nextId + 1)
  {
    var t := s + [e];
    forall i | 0 <= i < |t| ensures t[i].id < nextId + 1 && Conforms(t[i]) {
      if i < |s| { assert t[i] == s[i]; }
    }
    forall i, j | 0 <= i < j < |t| ensures t[i].id != t[j].id {
      assert t[i] == s[i];
      if j < |s| { assert t[j] == s[j]; }
    }
  }

  /** An update that passes validation keeps the store well-formed. */
  lemma UpdateKeepsStored(
    s: seq<Expense>, nextId: nat, expenseId: ExpenseId, userId: UserId,
    amount: Option<real>, category: Option<string>, description: Option<string>, date: Option<Instant>, now: Instant)
    requires Stored(s, nextId)
    requires FailingPaths(amount, TrimmedOpt(category), TrimmedOpt(description)) == {}
    ensures Lookup(s, expenseId, userId).Some? ==>
      Stored(ReplaceOwned(s, expenseId, userId, ApplyUpdate(Lookup(s, expenseId, userId).value, amount, category, description, date, now)), nextId)
  {
    match FindOwned(s, expenseId, userId)
    case None =>
    case Some(k) =>
      var updated := ApplyUpdate(s[k], amount, category, description, date, now);
      UpdateKeepsConformance(s[k], amount, category, description, date, now);
      assert Lookup(s, expenseId, userId) == Some(s[k]);
      assert ReplaceOwned(s, expenseId, userId, updated) == s[k := updated];
      ReplaceKeepsStored(s, nextId, k, updated);
  }

  lemma ReplaceKeepsStored(s: seq<Expense>, nextId: nat, k: nat, e: Expense)
    requires Stored(s, nextId) && k < |s| && e.id == s[k].id && Conforms(e)
    ensures Stored(s[k := e], nextId)
  {
  }

  /** A delete keeps the store well-formed. */
  lemma DeleteKeepsStored(s: seq<Expense>, nextId: nat, expenseId: ExpenseId, userId: UserId)
    requires Stored(s, nextId)
    ensures Stored(DeleteOwned(s, expenseId, userId), nextId)
  {
    match FindOwned(s, expenseId, userId)
    case None =>
    case Some(k) =>
      RemoveKeepsStored(s, nextId, k);
      assert DeleteOwned(s, expenseId, userId) == s[..k] + s[k + 1..];
  }

  lemma RemoveKeepsStored(s: seq<Expense>, nextId: nat, k: nat)
    requires Stored(s, nextId) && k < |s|
    ensures Stored(s[..k] + s[k + 1..], nextId)
  {
    var t := s[..k] + s[k + 1..];
    forall i | 0 <= i < |t| ensures t[i] == s[if i < k then i else i + 1] {
    }
    forall i, j | 0 <= i < j < |t| ensures t[i].id != t[j].id {
      assert t[i] == s[if i < k then i else i + 1];
      assert t[j] == s[if j < k then j else j + 1];
    }
    forall i | 0 <= i < |t| ensures t[i].id < nextId && Conforms(t[i]) {
      assert t[i] == s[if i < k then i else i + 1];
    }
  }

  /** The store: the expense documents in their natural order, and the next fresh id. */
  class ExpenseStore {
    var expenses: seq<Expense>
    var nextId: nat

    ghost predicate Valid()
      reads this
    {
      Stored(expenses, nextId)
    }

    constructor()
      ensures Valid() && expenses == [] && nextId == 0
    {
      expenses := [];
      nextId := 0;
    }

    /** `createExpense`: the date defaults to now (a given Invalid Date is kept, since it is
        truthy); a document that fails validation is not stored. */
    method CreateExpense(userId: UserId, amount: real, category: string, description: string, date: Option<DateTime>, now: Instant)
      returns (r: Result<Expense, ValidationError>)
      requires Valid()
      modifies this
      ensures Valid()
      ensures r == NewExpense(old(nextId), userId, amount, category, description, date.GetOr(now), now)
      ensures r.Success? ==> expenses == old(expenses) + [r.value] && nextId == old(nextId) + 1
      ensures r.Failure? ==> expenses == old(expenses) && nextId == old(nextId)
    {
      r := NewExpense(nextId, userId, amount, category, description, date.GetOr(now), now);
      if r.Success? {
        AppendKeepsStored(expenses, nextId, r.value);
        expenses := expenses + [r.value];
        nextId := nextId + 1;
      }
    }

    /** `getExpensesByUser`: the user's records within the given bounds, newest first; a bound
        that is an Invalid Date makes the query fail its cast. */
    method GetExpensesByUser(userId: UserId, startDate: Option<DateTime>, endDate: Option<DateTime>)
      returns (r: Result<seq<Expense>, CastError>)
      ensures r.Failure? <==> (startDate.Some? && !IsValid(startDate.value)) || (endDate.Some? && !IsValid(endDate.value))
      ensures r.Failure? ==> r.error == CastError(Path(Field.Date))
      ensures r.Success? ==> var q := Query(userId, CastRange(startDate, endDate).value);
        && (forall e :: e in r.value <==> e in expenses && Matches(e, q))
        && (forall i, j :: 0 <= i < j < |r.value| ==> NotAfter(r.value[j].date, r.value[i].date))
        && multiset(r.value) == multiset(Filter(expenses, q))
    {
      var range := CastRange(startDate, endDate);
      if range.Failure? {
        r := Failure(range.error);
        return;
      }
      var q := Query(userId, range.value);
      var found := Filter(expenses, q);
      FilterMembers(expenses, q);
      var sorted := SortNewestFirst(found);
      assert forall e :: e in sorted <==> e in multiset(found);
      r := Success(sorted);
    }

    /** `getExpenseById`: the record with this id, only if it belongs to this user. */
    method GetExpenseById(expenseId: ExpenseId, userId: UserId) returns (r: Option<Expense>)
      ensures r.Some? ==> r.value in expenses && r.value.id == expenseId && r.value.userId == userId
      ensures r.None? <==> forall e :: e in expenses ==> !Owned(e, expenseId, userId)
      ensures r == Lookup(expenses, expenseId, userId)
    {
      r := Lookup(expenses, expenseId, userId);
    }

    /** `updateExpense`: the update is cast first (a given Invalid Date fails there) and the update
        validators run next; then the user's record with this id, if any, takes the supplied
        fields and is returned as it is after the update. */
    method UpdateExpense(
      expenseId: ExpenseId, userId: UserId,
      amount: Option<real>, category: Option<string>, description: Option<string>, date: Option<DateTime>,
      now: Instant)
      returns (r: Result<Option<Expense>, UpdateError>)
      requires Valid()
      modifies this`expenses
      ensures Valid()
      ensures var paths := FailingPaths(amount, TrimmedOpt(category), TrimmedOpt(description));
        r.Failure? <==> (date.Some? && !IsValid(date.value)) || paths != {}
      ensures date.Some? && !IsValid(date.value) ==> r == Failure(Uncastable(CastError(Path(Field.Date))))
      ensures r.Failure? && r.error.Invalid? ==>
        r.error.validation.paths == FailingPaths(amount, TrimmedOpt(category), TrimmedOpt(description))
      ensures r.Failure? ==> expenses == old(expenses)
      ensures r.Success? && r.value.None? ==> expenses == old(expenses)
      ensures r.Success? ==> CastDate(date).Success? && r.value == match Lookup(old(expenses), expenseId, userId)
        case None => None
        case Some(e) => Some(ApplyUpdate(e, amount, category, description, CastDate(date).value, now))
      ensures r.Success? && r.value.Some? ==> expenses == ReplaceOwned(old(expenses), expenseId, userId, r.value.value)
    {
      var cast := CastDate(date);
      if cast.Failure? {
        r := Failure(Uncastable(cast.error));
        return;
      }
      var paths := FailingPaths(amount, TrimmedOpt(category), TrimmedOpt(description));
      if paths != {} {
        r := Failure(Invalid(ValidationError(paths)));
        return;
      }
      var found := Lookup(expenses, expenseId, userId);
      if found.None? {
        r := Success(None);
        return;
      }
      var updated := ApplyUpdate(found.value, amount, category, description, cast.value, now);
      UpdateKeepsStored(expenses, nextId, expenseId, userId, amount, category, description, cast.value, now);
      expenses := ReplaceOwned(expenses, expenseId, userId, updated);
      r := Success(Some(updated));
    }

    /** `deleteExpense`: removes the user's record with this id and returns it, or changes nothing. */
    method DeleteExpense(expenseId: ExpenseId, userId: UserId) returns (r: Option<Expense>)
      requires Valid()
      modifies this`expenses
      ensures Valid()
      ensures r == Lookup(old(expenses), expenseId, userId)
      ensures expenses == DeleteOwned(old(expenses), expenseId, userId)
    {
      r := Lookup(expenses, expenseId, userId);
      DeleteKeepsStored(expenses, nextId, expenseId, userId);
      expenses := DeleteOwned(expenses, expenseId, userId);
    }

    /** `getMonthlySummary`: the summary over the user's records of one month; an out-of-range
        window is an Invalid Date, which the query rejects. */
    method GetMonthlySummary(userId: UserId, year: int, month: int) returns (r: Result<MonthlySummary, CastError>)
      ensures r.Failure? <==> !IsValid(MonthStart(year, month)) || !IsValid(MonthEnd(year, month))
      ensures r.Success? ==>
        var s := MonthStart(year, month);
        var records := Filter(expenses, Query(userId, DateRange(Some(s), Some(MonthEnd(year, month)))));
        && (forall e :: e in records <==> e in expenses && e.userId == userId && e.date.year == s.year && e.date.month == s.month)
        && r.value == Summarize(records, MonthName(s), year)
    {
      var startDate := ToInstant(MonthStart(year, month));
      var endDate := ToInstant(MonthEnd(year, month));
      if startDate.None? || endDate.None? {
        r := Failure(CastError(Path(Field.Date)));
        return;
      }
      var records := Filter(expenses, Query(userId, DateRange(startDate, endDate)));
      FilterMembers(expenses, Query(userId, DateRange(startDate, endDate)));
      forall e | e in expenses ensures InRange(e.date, DateRange(startDate, endDate)) <==> e.date.year == startDate.value.year && e.date.month == startDate.value.month {
        InMonthWindow(e.date, year, month);
      }
      var totalExpenses := SumAmounts(records);
      var categoryMap := CollectCategories(records);
      var dayMap := CollectTotals(records, DayOf);
      r := Success(MonthlySummary(
        MonthName(startDate.value), year, totalExpenses, Breakdown(categoryMap), SortDays(DayRows(dayMap))));
    }

    /** `getCategoryStats`: each category of the user's records within the bounds, with its total,
        count and percentage of the grand total; a bound that is an Invalid Date makes the query
        fail its cast. */
    method GetCategoryStats(userId: UserId, startDate: Option<DateTime>, endDate: Option<DateTime>)
      returns (r: Result<seq<CategoryStats>, CastError>)
      ensures r.Failure? <==> (startDate.Some? && !IsValid(startDate.value)) || (endDate.Some? && !IsValid(endDate.value))
      ensures r.Failure? ==> r.error == CastError(Path(Field.Date))
      ensures r.Success? ==> r.value == CategoryStatsOf(Filter(expenses, Query(userId, CastRange(startDate, endDate).value)))
    {
      var range := CastRange(startDate, endDate);
      if range.Failure? {
        r := Failure(range.error);
        return;
      }
      var records := Filter(expenses, Query(userId, range.value));
      var totalAmount := SumAmounts(records);
      var categoryMap := CollectCategories(records);
      r := Success(StatsRows(categoryMap, totalAmount));
    }
  }
}
