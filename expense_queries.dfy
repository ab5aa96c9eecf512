/** The pure side of the expense service's queries: the filter `Expense.find` applies, the
    newest-first order of a listing, the owner-scoped lookup behind `findOne`,
    `findOneAndUpdate` and `findOneAndDelete`, and the running total (`reduce`). */
module ExpenseQueries {
  import opened Wrappers
  import opened Calendar
  import opened ExpenseModel
  import opened Sorting
  import opened Fields

  /** Optional lower and upper date bounds, each independently present (`$gte` / `$lte`). */
  datatype DateRange = DateRange(start: Option<Instant>, end: Option<Instant>)

  /** The query object: the owner, and the date bounds that were given. */
  datatype Query = Query(userId: UserId, range: DateRange)

  const Unbounded: DateRange := DateRange(None, None)

  /** Mongoose's CastError: a value given for `path` that cannot be cast, here an Invalid Date. */
  datatype CastError = CastError(path: string)

  /** A date handed to a query or an update, cast as Mongoose casts it. An Invalid Date is truthy,
      so it is not dropped on the way, and fails the cast of the `date` path. */
  function CastDate(d: Option<DateTime>): (r: Result<Option<Instant>, CastError>)
    ensures r.Failure? <==> d.Some? && !IsValid(d.value)
    ensures r.Failure? ==> r.error == CastError(Path(Field.Date))
    ensures r.Success? ==> r.value == d
  {
    match d
    case None => Success(None)
    case Some(t) => if IsValid(t) then Success(Some(t)) else Failure(CastError(Path(Field.Date)))
  }

  /** The bounds `query.date.$gte` / `$lte` after the cast: each given bound is kept, and the
      query fails when a given bound is an Invalid Date. */
  function CastRange(start: Option<DateTime>, end: Option<DateTime>): (r: Result<DateRange, CastError>)
    ensures r.Failure? <==> (start.Some? && !IsValid(start.value)) || (end.Some? && !IsValid(end.value))
    ensures r.Failure? ==> r.error == CastError(Path(Field.Date))
    ensures r.Success? ==> r.value.start == start && r.value.end == end
  {
    match CastDate(start)
    case Failure(e) => Failure(e)
    case Success(s) =>
      match CastDate(end)
      case Failure(e) => Failure(e)
      case Success(t) => Success(DateRange(s, t))
  }

  predicate InRange(d: Instant, r: DateRange) {
    && (r.start.Some? ==> NotAfter(r.start.value, d))
    && (r.end.Some? ==> NotAfter(d, r.end.value))
  }

  predicate Matches(e: Expense, q: Query) {
    e.userId == q.userId && InRange(e.date, q.range)
  }

  /** `Expense.find(query)`: the matching records, in the store's natural order. */
  function Filter(s: seq<Expense>, q: Query): (r: seq<Expense>)
  {
    if s == [] then [] else (if Matches(s[0], q) then [s[0]] else []) + Filter(s[1..], q)
  }

  /** The filter keeps exactly the matching records. */
  lemma {:induction false} FilterMembers(s: seq<Expense>, q: Query)
    ensures forall e :: e in Filter(s, q) <==> e in s && Matches(e, q)
  {
    if s != [] {
      FilterMembers(s[1..], q);
      assert s == [s[0]] + s[1..];
    }
  }

  /** Filtering keeps the relative order of what it keeps. */
  lemma {:induction false} FilterConcat(a: seq<Expense>, b: seq<Expense>, q: Query)
    ensures Filter(a + b, q) == Filter(a, q) + Filter(b, q)
  {
    if a != [] {
      var ab := a + b;
      assert ab[0] == a[0] && ab[1..] == a[1..] + b;
      FilterConcat(a[1..], b, q);
      if Matches(a[0], q) {
        assert Filter(ab, q) == [a[0]] + Filter(a[1..] + b, q);
      } else {
        assert Filter(ab, q) == Filter(a[1..] + b, q);
      }
    } else {
      assert a + b == b;
    }
  }

  /** The records of one owner, in natural order. */
  function OwnedBy(s: seq<Expense>, userId: UserId): seq<Expense> {
    Filter(s, Query(userId, Unbounded))
  }

  // ---------------------------------------------------------------------------------------
  // `.sort({ date: -1 })`

  /** `a` may be listed before `b`: `b` is not newer. */
  predicate NotOlder(a: Expense, b: Expense) {
    NotAfter(b.date, a.date)
  }

  lemma NotOlderIsTotalPreorder()
    ensures TotalPreorder(NotOlder)
  {
    forall a: Expense, b: Expense, c: Expense {
      EarlierIsStrictTotalOrder(a.date, b.date, c.date);
    }
  }

  /** The records ordered by date, newest first. */
  function SortNewestFirst(s: seq<Expense>): (r: seq<Expense>)
    ensures forall i, j :: 0 <= i < j < |r| ==> NotAfter(r[j].date, r[i].date)
    ensures multiset(r) == multiset(s)
  {
    NotOlderIsTotalPreorder();
    var r := SortBy(s, NotOlder);
    assert forall i, j :: 0 <= i < j < |r| ==> NotOlder(r[i], r[j]);
    r
  }

  // ---------------------------------------------------------------------------------------
  // `expenses.reduce((sum, exp) => sum + exp.amount, 0)`

  function SumAmounts(s: seq<Expense>): real {
    if s == [] then 0.0 else SumAmounts(s[..|s| - 1]) + s[|s| - 1].amount
  }

  lemma {:induction false} SumAmountsNonNegative(s: seq<Expense>)
    requires forall e :: e in s ==> e.amount >= 0.0
    ensures SumAmounts(s) >= 0.0
  {
    if s != [] { SumAmountsNonNegative(s[..|s| - 1]); }
  }

  // ---------------------------------------------------------------------------------------
  // `{ _id: expenseId, userId }`

  predicate Owned(e: Expense, id: ExpenseId, userId: UserId) {
    e.id == id && e.userId == userId
  }

  /** The position of the first record with this id and this owner. */
  function FindOwned(s: seq<Expense>, id: ExpenseId, userId: UserId): (r: Option<nat>)
    ensures r.Some? ==> r.value < |s| && Owned(s[r.value], id, userId)
    ensures r.Some? ==> forall i :: 0 <= i < r.value ==> !Owned(s[i], id, userId)
    ensures r.None? <==> forall i :: 0 <= i < |s| ==> !Owned(s[i], id, userId)
  {
    if s == [] then None
    else if Owned(s[0], id, userId) then Some(0)
    else match FindOwned(s[1..], id, userId)
      case None => None
      case Some(k) => Some(k + 1)
  }

  /** `findOne({ _id, userId })`: the record, or absent when no record has both this id and this owner. */
  function Lookup(s: seq<Expense>, id: ExpenseId, userId: UserId): (r: Option<Expense>)
    ensures r.Some? ==> r.value in s && r.value.id == id && r.value.userId == userId
    ensures r.None? <==> forall e :: e in s ==> !Owned(e, id, userId)
  {
    match FindOwned(s, id, userId)
    case None => None
    case Some(k) => Some(s[k])
  }

  /** The store after `findOneAndDelete({ _id, userId })`. */
  function DeleteOwned(s: seq<Expense>, id: ExpenseId, userId: UserId): seq<Expense> {
    match FindOwned(s, id, userId)
    case None => s
    case Some(k) => s[..k] + s[k + 1..]
  }

  /** The store after `findOneAndUpdate` has replaced the matching record by `updated`. */
  function ReplaceOwned(s: seq<Expense>, id: ExpenseId, userId: UserId, updated: Expense): seq<Expense> {
    match FindOwned(s, id, userId)
    case None => s
    case Some(k) => s[k := updated]
  }

  predicate IdsDistinct(s: seq<Expense>) {
    forall i, j :: 0 <= i < j < |s| ==> s[i].id != s[j].id
  }

  /** Delete removes exactly the record the lookup finds, and nothing when it finds none. */
  lemma DeleteRemovesLookup(s: seq<Expense>, id: ExpenseId, userId: UserId)
    ensures Lookup(s, id, userId).None? ==> DeleteOwned(s, id, userId) == s
    ensures Lookup(s, id, userId).Some? ==>
      multiset(DeleteOwned(s, id, userId)) == multiset(s) - multiset{Lookup(s, id, userId).value}
  {
    match FindOwned(s, id, userId)
    case None =>
    case Some(k) =>
      assert s == s[..k] + [s[k]] + s[k + 1..];
  }

  /** With distinct ids, a second delete of the same id finds nothing and changes nothing. */
  lemma DeleteIdempotent(s: seq<Expense>, id: ExpenseId, userId: UserId)
    requires IdsDistinct(s)
    ensures Lookup(DeleteOwned(s, id, userId), id, userId).None?
    ensures DeleteOwned(DeleteOwned(s, id, userId), id, userId) == DeleteOwned(s, id, userId)
  {
    match FindOwned(s, id, userId)
    case None =>
    case Some(k) =>
      var r := DeleteOwned(s, id, userId);
      forall i | 0 <= i < |r| ensures !Owned(r[i], id, userId) {
        if i < k { assert r[i] == s[i]; } else { assert r[i] == s[i + 1]; }
      }
  }

  /** A record the query does not match can be dropped without changing the filter. */
  lemma FilterSkip(a: seq<Expense>, x: Expense, b: seq<Expense>, q: Query)
    requires !Matches(x, q)
    ensures Filter(a + [x] + b, q) == Filter(a + b, q)
  {
    FilterConcat(a + [x], b, q);
    FilterConcat(a, [x], q);
    FilterConcat(a, b, q);
    assert Filter([x], q) == [] + Filter([], q);
  }

  /** Delete, as seen by any other owner, changes nothing. */
  lemma DeleteSparesOtherOwners(s: seq<Expense>, id: ExpenseId, userId: UserId, other: UserId)
    requires other != userId
    ensures OwnedBy(DeleteOwned(s, id, userId), other) == OwnedBy(s, other)
  {
    match FindOwned(s, id, userId)
    case None =>
    case Some(k) =>
      assert DeleteOwned(s, id, userId) == s[..k] + s[k + 1..];
      assert s == s[..k] + [s[k]] + s[k + 1..];
      FilterSkip(s[..k], s[k], s[k + 1..], Query(other, Unbounded));
  }

  /** Replacing the matching record by one with the same owner, as seen by any other owner, changes nothing. */
  lemma ReplaceSparesOtherOwners(s: seq<Expense>, id: ExpenseId, userId: UserId, updated: Expense, other: UserId)
    requires other != userId && updated.userId == userId
    ensures OwnedBy(ReplaceOwned(s, id, userId, updated), other) == OwnedBy(s, other)
  {
    match FindOwned(s, id, userId)
    case None =>
    case Some(k) =>
      var q := Query(other, Unbounded);
      assert ReplaceOwned(s, id, userId, updated) == s[..k] + [updated] + s[k + 1..];
      assert s == s[..k] + [s[k]] + s[k + 1..];
      FilterSkip(s[..k], s[k], s[k + 1..], q);
      FilterSkip(s[..k], updated, s[k + 1..], q);
  }

  /** A record appended with a fresh id is found again by its id and owner. */
  lemma LookupAfterAppend(s: seq<Expense>, e: Expense)
    requires forall x :: x in s ==> x.id != e.id
    ensures Lookup(s + [e], e.id, e.userId) == Some(e)
  {
    var t := s + [e];
    assert Owned(t[|s|], e.id, e.userId);
    assert forall i :: 0 <= i < |s| ==> !Owned(t[i], e.id, e.userId) by {
      forall i | 0 <= i < |s| ensures !Owned(t[i], e.id, e.userId) { assert t[i] == s[i]; }
    }
  }
}
