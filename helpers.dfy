/** The client's category lookup tables: a colour and a one-letter icon per category, with the
    `other` entry for any name the table does not hold. */
module Helpers {
  import opened Categories

  /** The colour table, as a finite map from category name to colour. */
  const Colors: map<string, string> := map[
    "food" := "#FF6B6B",
    "transport" := "#4ECDC4",
    "utilities" := "#45B7D1",
    "entertainment" := "#FFA07A",
    "healthcare" := "#98D8C8",
    "shopping" := "#F7DC6F",
    "education" := "#BB8FCE",
    "other" := "#95A5A6"]

  /** The icon table. */
  const Icons: map<string, string> := map[
    "food" := "F",
    "transport" := "T",
    "utilities" := "U",
    "entertainment" := "E",
    "healthcare" := "H",
    "shopping" := "S",
    "education" := "D",
    "other" := "O"]

  /** `colors[category] || colors.other`: an empty entry would also fall back, but none is empty. */
  function CategoryColor(category: string): (color: string)
    ensures category in Colors ==> color == Colors[category]
    ensures category !in Colors ==> color == "#95A5A6"
  {
    if category in Colors && Colors[category] != "" then Colors[category] else Colors["other"]
  }

  /** `icons[category] || icons.other`. */
  function CategoryIcon(category: string): (icon: string)
    ensures category in Icons ==> icon == Icons[category]
    ensures category !in Icons ==> icon == "O"
  {
    if category in Icons && Icons[category] != "" then Icons[category] else Icons["other"]
  }

  /** The tables cover exactly the schema's categories. */
  lemma TablesCoverCategories(c: string)
    ensures c in Colors <==> IsCategory(c)
    ensures c in Icons <==> IsCategory(c)
  {
  }

  /** The entries the interface shows, among them 'D' for education. */
  lemma KnownEntries()
    ensures CategoryColor("food") == "#FF6B6B" && CategoryIcon("food") == "F"
    ensures CategoryColor("education") == "#BB8FCE" && CategoryIcon("education") == "D"
    ensures CategoryColor("other") == "#95A5A6" && CategoryIcon("other") == "O"
  {
  }
}
