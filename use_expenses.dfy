/** The client's `useExpenses` hook: the list of expenses it holds, its loading flag and error
    message, and how each API call's outcome updates them. API calls are given as their outcomes. */
module UseExpenses {
  import opened Wrappers

  /** An expense as the client receives it (dates as ISO strings). */
  datatype ClientExpense = ClientExpense(
    id: string,
    userId: string,
    amount: real,
    category: string,
    description: string,
    date: string,
    createdAt: string,
    updatedAt: string)

  /** What an API call may throw: an `Error` with its message, or some other value. */
  datatype Thrown = ErrorObject(message: string) | OtherValue

  const FetchFailedMessage: string := "Failed to fetch expenses"

  /** `err instanceof Error ? err.message : 'Failed to fetch expenses'`. */
  function ErrorMessage(err: Thrown): string {
    match err
    case ErrorObject(message) => message
    case OtherValue => FetchFailedMessage
  }

  // ---------------------------------------------------------------------------------------
  // The `setExpenses` updaters

  /** `prev.map((exp) => (exp._id === id ? updated : exp))`. */
  function ReplaceById(s: seq<ClientExpense>, id: string, updated: ClientExpense): (r: seq<ClientExpense>)
    ensures |r| == |s|
    ensures forall i :: 0 <= i < |s| ==> r[i] == if s[i].id == id then updated else s[i]
  {
    if s == [] then [] else [if s[0].id == id then updated else s[0]] + ReplaceById(s[1..], id, updated)
  }

  /** `prev.filter((exp) => exp._id !== id)`. */
  function RemoveById(s: seq<ClientExpense>, id: string): seq<ClientExpense> {
    if s == [] then [] else (if s[0].id != id then [s[0]] else []) + RemoveById(s[1..], id)
  }

  /** The number of elements with this id. */
  function CountId(s: seq<ClientExpense>, id: string): nat {
    if s == [] then 0 else (if s[0].id == id then 1 else 0) + CountId(s[1..], id)
  }

  /** The filter keeps exactly the elements with another id, and drops one element per match. */
  lemma {:induction false} RemoveByIdMembers(s: seq<ClientExpense>, id: string)
    ensures forall e :: e in RemoveById(s, id) <==> e in s && e.id != id
    ensures |RemoveById(s, id)| == |s| - CountId(s, id)
  {
    if s != [] {
      RemoveByIdMembers(s[1..], id);
      assert s == [s[0]] + s[1..];
    }
  }

  /** The filter keeps the relative order: it distributes over concatenation. */
  lemma {:induction false} RemoveByIdConcat(a: seq<ClientExpense>, b: seq<ClientExpense>, id: string)
    ensures RemoveById(a + b, id) == RemoveById(a, id) + RemoveById(b, id)
  {
    if a == [] {
      assert a + b == b;
    } else {
      assert (a + b)[0] == a[0] && (a + b)[1..] == a[1..] + b;
      RemoveByIdConcat(a[1..], b, id);
    }
  }

  /** A list without the id is left as it is. */
  lemma {:induction false} RemoveByIdNoop(s: seq<ClientExpense>, id: string)
    requires forall e :: e in s ==> e.id != id
    ensures RemoveById(s, id) == s
  {
    if s != [] {
      assert s[0] in s;
      assert forall e :: e in s[1..] ==> e in s;
      RemoveByIdNoop(s[1..], id);
      assert s == [s[0]] + s[1..];
    }
  }

  /** Removing twice is removing once. */
  lemma RemoveByIdIdempotent(s: seq<ClientExpense>, id: string)
    ensures RemoveById(RemoveById(s, id), id) == RemoveById(s, id)
  {
    RemoveByIdMembers(s, id);
    RemoveByIdNoop(RemoveById(s, id), id);
  }

  /** Deleting an id after updating it, with an expense that keeps the id, is deleting it. */
  lemma {:induction false} RemoveAfterReplace(s: seq<ClientExpense>, id: string, updated: ClientExpense)
    requires updated.id == id
    ensures RemoveById(ReplaceById(s, id, updated), id) == RemoveById(s, id)
  {
    if s != [] {
      var r := ReplaceById(s, id, updated);
      assert r == [r[0]] + ReplaceById(s[1..], id, updated);
      RemoveAfterReplace(s[1..], id, updated);
    }
  }

  // ---------------------------------------------------------------------------------------
  // The hook's state

  class ExpensesHook {
    var expenses: seq<ClientExpense>
    var isLoading: bool
    var error: Option<string>

    /** The initial state: no expenses, loading, no error. */
    constructor()
      ensures expenses == [] && isLoading && error == None
    {
      expenses := [];
      isLoading := true;
      error := None;
    }

    /** `fetchExpenses`: on success the list becomes the fetched data and the error is cleared; on
        failure the list stays and the error holds the message; loading ends either way. */
    method FetchExpenses(response: Result<seq<ClientExpense>, Thrown>)
      modifies this
      ensures !isLoading
      ensures response.Success? ==> expenses == response.value && error == None
      ensures response.Failure? ==> expenses == old(expenses) && error == Some(ErrorMessage(response.error))
    {
      isLoading := true;
      error := None;
      match response {
        case Success(data) =>
          expenses := data;
        case Failure(err) =>
          error := Some(ErrorMessage(err));
      }
      isLoading := false;
    }

    /** `createExpense`: the new expense goes to the front; a failed call is rethrown and the list stays. */
    method CreateExpense(response: Result<ClientExpense, Thrown>) returns (r: Result<ClientExpense, Thrown>)
      modifies this`expenses
      ensures r == response
      ensures response.Success? ==> expenses == [response.value] + old(expenses)
      ensures response.Failure? ==> expenses == old(expenses)
    {
      r := response;
      if response.Success? {
        expenses := [response.value] + expenses;
      }
    }

    /** `updateExpense`: every element with this id is replaced by the returned expense. */
    method UpdateExpense(id: string, response: Result<ClientExpense, Thrown>) returns (r: Result<ClientExpense, Thrown>)
      modifies this`expenses
      ensures r == response
      ensures response.Success? ==> expenses == ReplaceById(old(expenses), id, response.value)
      ensures response.Failure? ==> expenses == old(expenses)
    {
      r := response;
      if response.Success? {
        expenses := ReplaceById(expenses, id, response.value);
      }
    }

    /** `deleteExpense`: every element with this id is removed once the call succeeds. */
    method DeleteExpense(id: string, response: Option<Thrown>) returns (r: Option<Thrown>)
      modifies this`expenses
      ensures r == response
      ensures response.None? ==> expenses == RemoveById(old(expenses), id)
      ensures response.Some? ==> expenses == old(expenses)
    {
      r := response;
      if response.None? {
        expenses := RemoveById(expenses, id);
      }
    }
  }
}
