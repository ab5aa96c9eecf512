/** The Mongoose expense schema: the document a stored expense is, the `trim` setters that run
    before validation, and the validators (`required`, `min: 0`, `enum`). */
module ExpenseModel {
  import opened Wrappers
  import opened JsString
  import opened Calendar
  import opened Categories
  import opened Fields

  type ExpenseId = nat
  type UserId = nat

  /** A stored expense document; `createdAt`/`updatedAt` are maintained by the `timestamps` option. */
  datatype Expense = Expense(
    id: ExpenseId,
    userId: UserId,
    amount: real,
    category: string,
    description: string,
    date: Instant,
    createdAt: Instant,
    updatedAt: Instant)

  /** Mongoose's ValidationError, reduced to the fields whose validators failed. */
  datatype ValidationError = ValidationError(paths: set<Field>)

  /** What every stored expense satisfies: a non-negative amount, a category of the enum and a
      description that is non-empty and trimmed (the owner and the date are always present). */
  predicate Conforms(e: Expense) {
    && e.amount >= 0.0
    && IsCategory(e.category)
    && e.description != [] && IsTrimmed(e.description)
  }

  /** The failing paths among the given (already trimmed) values; an absent value is not checked,
      as update validators check only the paths being updated. */
  function FailingPaths(amount: Option<real>, category: Option<string>, description: Option<string>): set<Field> {
    Check(amount.None? || amount.value >= 0.0, Amount)
    + Check(category.None? || IsCategory(category.value), Category)
    + Check(description.None? || description.value != [], Description)
  }

  /** A path is reported exactly when its value is given and fails its validator; nothing passes
      when every given value is valid. */
  lemma FailingPathsSpec(amount: Option<real>, category: Option<string>, description: Option<string>)
    ensures var paths := FailingPaths(amount, category, description);
      && (Amount in paths <==> amount.Some? && amount.value < 0.0)
      && (Category in paths <==> category.Some? && !IsCategory(category.value))
      && (Description in paths <==> description.Some? && description.value == [])
      && paths <= {Amount, Category, Description}
      && (paths == {} <==>
            (amount.Some? ==> amount.value >= 0.0)
            && (category.Some? ==> IsCategory(category.value))
            && (description.Some? ==> description.value != []))
  {
  }

  /** `Expense.create`: trims category and description, casts the date, validates, and gives the
      document to store. A date that is an Invalid Date fails its cast, which document validation
      reports among the failing paths. */
  function NewExpense(id: ExpenseId, userId: UserId, amount: real, category: string, description: string, date: DateTime, now: Instant)
    : (r: Result<Expense, ValidationError>)
    ensures r.Success? <==> amount >= 0.0 && IsCategory(Trim(category)) && Trim(description) != [] && IsValid(date)
    ensures r.Success? ==> Conforms(r.value)
    ensures r.Success? ==> r.value == Expense(id, userId, amount, Trim(category), Trim(description), date, now, now)
    ensures r.Failure? ==> r.error.paths != {} && (Field.Date in r.error.paths <==> !IsValid(date))
  {
    TrimIsTrimmed(description);
    var paths := FailingPaths(Some(amount), Some(Trim(category)), Some(Trim(description))) + Check(IsValid(date), Field.Date);
    if paths == {} then Success(Expense(id, userId, amount, Trim(category), Trim(description), date, now, now))
    else Failure(ValidationError(paths))
  }

  /** `findOneAndUpdate` of the supplied fields on a stored document (after the `trim` setters):
      the supplied fields take the new values, `updatedAt` becomes `now`, and nothing else changes. */
  function ApplyUpdate(e: Expense, amount: Option<real>, category: Option<string>, description: Option<string>, date: Option<Instant>, now: Instant)
    : (r: Expense)
    ensures r.id == e.id && r.userId == e.userId && r.createdAt == e.createdAt && r.updatedAt == now
    ensures r.amount == amount.GetOr(e.amount) && r.date == date.GetOr(e.date)
    ensures r.category == (if category.Some? then Trim(category.value) else e.category)
    ensures r.description == (if description.Some? then Trim(description.value) else e.description)
  {
    e.(amount := amount.GetOr(e.amount),
       category := if category.Some? then Trim(category.value) else e.category,
       description := if description.Some? then Trim(description.value) else e.description,
       date := date.GetOr(e.date),
       updatedAt := now)
  }

  /** An update that passes the update validators keeps a conforming document conforming. */
  lemma UpdateKeepsConformance(e: Expense, amount: Option<real>, category: Option<string>, description: Option<string>, date: Option<Instant>, now: Instant)
    requires Conforms(e)
    requires FailingPaths(amount, TrimmedOpt(category), TrimmedOpt(description)) == {}
    ensures Conforms(ApplyUpdate(e, amount, category, description, date, now))
  {
    if description.Some? {
      TrimIsTrimmed(description.value);
    }
  }

  function TrimmedOpt(s: Option<string>): Option<string> {
    match s
    case Some(v) => Some(Trim(v))
    case None => None
  }
}
