/** The request-body and query rules checked before a handler runs. Each rule array is a list of
    chains, and the outcome is the set of fields whose chain fails. The library checks
    `isEmail` and `isISO8601` and the `normalizeEmail` sanitizer are given as functions. A body
    field the client did not send is `None`. */
module ValidationRules {
  import opened Wrappers
  import opened JsString
  import opened Categories
  import opened Calendar
  import opened ExpenseModel
  import opened Fields

  /** The fields of a registration or login body. */
  datatype CredentialsBody = CredentialsBody(email: Option<string>, password: Option<string>, name: Option<string>)

  /** The fields of an expense body; the amount is the JSON number the client sent. */
  datatype ExpenseBody = ExpenseBody(amount: Option<real>, category: Option<string>, description: Option<string>, date: Option<string>)

  /** The outcome of a rule array: the failing fields and the body after the sanitizers ran. */
  datatype Checked<T> = Checked(errors: set<Field>, body: T)

  /** A missing field is validated as the empty string. */
  function Text(v: Option<string>): string {
    v.GetOr("")
  }

  /** An `optional()` chain passes when the field is missing, otherwise when `check` accepts it. */
  predicate OptionalPasses(v: Option<string>, check: string -> bool) {
    v.None? || check(v.value)
  }

  /** A sanitizer applies to a field that was sent and leaves a missing one missing. */
  function Sanitized(v: Option<string>, f: string -> string): (r: Option<string>)
    ensures r.Some? <==> v.Some?
    ensures r.Some? ==> r.value == f(v.value)
  {
    match v
    case None => None
    case Some(s) => Some(f(s))
  }

  /** The length validator.js's `isLength` measures: code points, with the presentation selectors
      U+FE0E and U+FE0F not counted. A surrogate pair is one character of a Dafny string already. */
  function ValidatorLength(s: string): (n: nat)
    ensures n <= |s|
    ensures (forall i :: 0 <= i < |s| ==> s[i] != '\U{FE0E}' && s[i] != '\U{FE0F}') ==> n == |s|
  {
    if s == [] then 0
    else (if s[0] == '\U{FE0E}' || s[0] == '\U{FE0F}' then 0 else 1) + ValidatorLength(s[1..])
  }

  /** A trailing presentation selector does not make a password long enough. */
  lemma SelectorNotCounted()
    ensures ValidatorLength("abcde\U{FE0F}") == 5
    ensures Password in RegisterRules(CredentialsBody(None, Some("abcde\U{FE0F}"), None), _ => true, e => e).errors
  {
    assert "abcde\U{FE0F}"[1..] == "bcde\U{FE0F}";
    assert "bcde\U{FE0F}"[1..] == "cde\U{FE0F}";
    assert "cde\U{FE0F}"[1..] == "de\U{FE0F}";
    assert "de\U{FE0F}"[1..] == "e\U{FE0F}";
    assert "e\U{FE0F}"[1..] == "\U{FE0F}";
  }

  /** `registerRules`: a valid email (then normalised), a password of at least 6 characters as
      `isLength` counts them, and a name that is not empty once trimmed (the trimmed name replaces
      the sent one). */
  function RegisterRules(b: CredentialsBody, isEmail: string -> bool, normalizeEmail: string -> string)
    : (c: Checked<CredentialsBody>)
    ensures Email in c.errors <==> !isEmail(Text(b.email))
    ensures Password in c.errors <==> ValidatorLength(Text(b.password)) < 6
    ensures Name in c.errors <==> Trim(Text(b.name)) == []
    ensures c.errors <= {Email, Password, Name}
    ensures c.body == b.(email := Sanitized(b.email, normalizeEmail), name := Sanitized(b.name, Trim))
  {
    var name := Trim(Text(b.name));
    var e1 := Check(isEmail(Text(b.email)), Email);
    var e2 := Check(ValidatorLength(Text(b.password)) >= 6, Password);
    var e3 := Check(name != [], Name);
    var errors := e1 + e2 + e3;
    Checked(errors, b.(email := Sanitized(b.email, normalizeEmail), name := Sanitized(b.name, Trim)))
  }

  /** An accepted registration carries a password of at least 6 counted characters (so at least 6
      code points) and a name, and the name passed on is the trimmed one, which is not empty. */
  lemma AcceptedRegistration(b: CredentialsBody, isEmail: string -> bool, normalizeEmail: string -> string)
    requires RegisterRules(b, isEmail, normalizeEmail).errors == {}
    ensures b.password.Some? && ValidatorLength(b.password.value) >= 6 && |b.password.value| >= 6
    ensures var n := RegisterRules(b, isEmail, normalizeEmail).body.name;
      b.name.Some? && n == Some(Trim(b.name.value)) && n.value != []
  {
    var c := RegisterRules(b, isEmail, normalizeEmail);
    assert Password !in c.errors && Name !in c.errors;
  }

  /** `loginRules`: a valid email (then normalised) and a non-empty password. */
  function LoginRules(b: CredentialsBody, isEmail: string -> bool, normalizeEmail: string -> string)
    : (c: Checked<CredentialsBody>)
    ensures Email in c.errors <==> !isEmail(Text(b.email))
    ensures Password in c.errors <==> Text(b.password) == []
    ensures c.errors <= {Email, Password}
    ensures c.body == b.(email := Sanitized(b.email, normalizeEmail))
  {
    var errors :=
      Check(isEmail(Text(b.email)), Email)
      + Check(Text(b.password) != [], Password);
    Checked(errors, b.(email := Sanitized(b.email, normalizeEmail)))
  }

  /** The smallest amount a request may carry. */
  const MinAmount: real := 0.01

  /** `expenseRules`: an amount of at least 0.01, a category that is exactly one of the eight,
      a description that is not empty once trimmed (the trimmed description replaces the sent
      one), and an optional date in ISO 8601 form. */
  function ExpenseRules(b: ExpenseBody, isISO8601: string -> bool): (c: Checked<ExpenseBody>)
    ensures Amount in c.errors <==> b.amount.None? || b.amount.value < MinAmount
    ensures Category in c.errors <==> !IsCategory(Text(b.category))
    ensures Description in c.errors <==> Trim(Text(b.description)) == []
    ensures Field.Date in c.errors <==> !OptionalPasses(b.date, isISO8601)
    ensures c.errors <= {Amount, Category, Description, Field.Date}
    ensures c.body == b.(description := Sanitized(b.description, Trim))
  {
    var categoryOk, description := IsCategory(Text(b.category)), Trim(Text(b.description));
    var e1 := Check(b.amount.Some? && b.amount.value >= MinAmount, Amount);
    var e2 := Check(categoryOk, Category);
    var e3 := Check(description != [], Description);
    var e4 := Check(OptionalPasses(b.date, isISO8601), Field.Date);
    var errors := e1 + e2 + e3 + e4;
    Checked(errors, b.(description := Sanitized(b.description, Trim)))
  }

  /** `dateRangeRules`: each bound is optional and, when given, in ISO 8601 form. */
  function DateRangeRules(startDate: Option<string>, endDate: Option<string>, isISO8601: string -> bool)
    : (errors: set<Field>)
    ensures StartDate in errors <==> !OptionalPasses(startDate, isISO8601)
    ensures EndDate in errors <==> !OptionalPasses(endDate, isISO8601)
    ensures errors == {} <==> OptionalPasses(startDate, isISO8601) && OptionalPasses(endDate, isISO8601)
  {
    Check(OptionalPasses(startDate, isISO8601), StartDate)
    + Check(OptionalPasses(endDate, isISO8601), EndDate)
  }

  /** A body the expense rules accept is one the schema stores: creating the expense from the
      sanitized body succeeds, and the stored amount is at least 0.01. */
  lemma AcceptedBodyIsStorable(b: ExpenseBody, isISO8601: string -> bool, id: ExpenseId, userId: UserId, date: Instant, now: Instant)
    requires ExpenseRules(b, isISO8601).errors == {}
    ensures var s := ExpenseRules(b, isISO8601).body;
      && s.amount.Some? && s.category.Some? && s.description.Some?
      && var r := NewExpense(id, userId, s.amount.value, s.category.value, s.description.value, date, now);
      && r.Success? && r.value.amount >= MinAmount
      && r.value.category == b.category.value && r.value.description == Trim(b.description.value)
  {
    var s := ExpenseRules(b, isISO8601).body;
    assert Amount !in ExpenseRules(b, isISO8601).errors;
    assert Category !in ExpenseRules(b, isISO8601).errors;
    assert Description !in ExpenseRules(b, isISO8601).errors;
    CategoryIsTrimmed(b.category.value);
    TrimIdempotent(b.description.value);
  }

  /** The schema is looser than the request rules: a body with an amount of 0 and an
      otherwise valid category and description is refused by the rules for its amount alone,
      although the schema would store it. */
  lemma SchemaAcceptsZeroAmount(b: ExpenseBody, isISO8601: string -> bool, id: ExpenseId, userId: UserId, date: Instant, now: Instant)
    requires b.amount == Some(0.0) && b.category.Some? && IsCategory(b.category.value)
    requires b.description.Some? && Trim(b.description.value) != [] && OptionalPasses(b.date, isISO8601)
    ensures NewExpense(id, userId, 0.0, b.category.value, b.description.value, date, now).Success?
    ensures ExpenseRules(b, isISO8601).errors == {Amount}
  {
    CategoryIsTrimmed(b.category.value);
  }
}
