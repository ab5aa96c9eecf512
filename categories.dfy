/** The fixed set of expense categories, shared by the schema, the request rules and the client tables. */
module Categories {
  import opened JsString

  const Known: seq<string> := ["food", "transport", "utilities", "entertainment", "healthcare", "shopping", "education", "other"]

  predicate IsCategory(s: string) {
    s in Known
  }

  /** No category name has white space at either end, so trimming leaves it unchanged. */
  lemma CategoryIsTrimmed(c: string)
    requires IsCategory(c)
    ensures Trim(c) == c
  {
    TrimOfTrimmed(c);
  }
}
