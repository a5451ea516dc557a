/** The JSON list files behind the persistent stores. */
module Files {
  import opened Json
  import opened JsonRoundTrip
  import opened JsonExact

  /** A path on disk: absent, present but failing to read, or readable text. */
  datatype File = Missing | Unreadable | Holds(text: string)

  /** `_load`: the list in the file; empty when the file is missing, unreadable,
      not JSON, or not a list. */
  function LoadList(f: File): seq<Value> {
    match f
    case Missing => []
    case Unreadable => []
    case Holds(text) =>
      match Parse(text)
      case Some(Arr(items)) => items
      case _ => []
  }

  /** `_save` */
  function SaveList(items: seq<Value>): File {
    Holds(DumpsIndented(Arr(items)))
  }

  /** A string entry of a stored dict. */
  predicate IsTextField(f: Field, key: string) { f.key == Lit(key) && f.value.Text? }

  /** A saved list is read back identically if and only if no string in it has a
      high surrogate directly followed by a low one. */
  lemma SavedListLoads(items: seq<Value>)
    requires NumbersOkItems(items) && DictsOkItems(items)
    ensures LoadList(SaveList(items)) == items <==> PairFreeItems(items)
  {
    IndentedExact(Arr(items));
  }

  /** A saved list is read back with the surrogate pairs in its strings joined. */
  lemma SavedListJoins(items: seq<Value>)
    requires NumbersOkItems(items) && DictsOkItems(items)
    ensures LoadList(SaveList(items)) == JoinItems(items)
  {
    IndentedExact(Arr(items));
  }

  /** Whatever a file holds, what was loaded from it can be saved and loaded
      again without loss. */
  lemma LoadedListIsStable(f: File)
    ensures LoadList(SaveList(LoadList(f))) == LoadList(f)
  {
    if f.Holds? {
      ParseClean(f.text);
    }
    SavedListLoads(LoadList(f));
  }
}
