/** The four event categories and the style lookup `getCategoryStyle`. The
    admin page and the public events section each declare the same list and
    the same lookup; the model holds it once. Only the value and the label (`labelText`) of
    an entry are kept; the colour class strings are styling. */
module Categories {
  import opened Outcomes

  datatype Category = Category(value: string, labelText: string)

  const Entries: seq<Category> := [
    Category("ecoturismo", "Ecoturismo"),
    Category("cultura", "Cultura"),
    Category("talleres", "Talleres"),
    Category("activismo", "Activismo")
  ]

  /** The category a new event starts with, and the fallback of the lookup. */
  const Default: string := "ecoturismo"

  predicate IsCategory(value: string) {
    exists k :: 0 <= k < |Entries| && Entries[k].value == value
  }

  /** `entries.find((c) => c.value === value)`: the index of the first entry
      with that value, if there is one. */
  function FindIndex(entries: seq<Category>, value: string): (r: Option<nat>)
    ensures r.Some? ==> r.value < |entries| && entries[r.value].value == value
    ensures r.Some? ==> forall k :: 0 <= k < r.value ==> entries[k].value != value
    ensures r.None? ==> forall k :: 0 <= k < |entries| ==> entries[k].value != value
  {
    if entries == [] then None
    else if entries[0].value == value then Some(0)
    else match FindIndex(entries[1..], value)
      case None => None
      case Some(k) => Some(k + 1)
  }

  /** `getCategoryStyle(value)`: the entry with that value, or the first entry
      when none matches. Total: every string gets a style. */
  function GetCategoryStyle(value: string): (r: Category)
    ensures r in Entries
    ensures IsCategory(value) ==> r.value == value
    ensures !IsCategory(value) ==> r == Entries[0]
  {
    match FindIndex(Entries, value)
    case Some(k) => Entries[k]
    case None => Entries[0]
  }

  /** No two entries share a value, so the lookup's "first match" is the only
      match, and the fallback entry is the default category. */
  lemma EntriesDistinct()
    ensures forall i, j :: 0 <= i < j < |Entries| ==> Entries[i].value != Entries[j].value
    ensures Entries[0].value == Default
  {
  }

  /** Looking up an unknown category, an empty string included, gives the
      "ecoturismo" entry. */
  lemma UnknownCategoryFallsBack(value: string)
    requires value !in ["ecoturismo", "cultura", "talleres", "activismo"]
    ensures GetCategoryStyle(value) == Category("ecoturismo", "Ecoturismo")
  {
  }
}
