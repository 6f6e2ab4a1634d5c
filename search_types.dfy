/**
 * The types shared by the gram generators, the index builder and the query
 * builder: the gram-kind code table, the two search modes, a generator's
 * result and the searchable-field map.
 */
module SearchTypes {

  /** Outcome of an operation that may abort by throwing an Error with a message. */
  datatype Result<T> = Success(value: T) | Failure(error: string)

  datatype Option<T> = None | Some(value: T)

  /** The gram kinds; their short codes appear verbatim inside index field names. */
  datatype SearchableType = PRE | BI | TRI {
    /** A code is a short lowercase word, so it never contains the "_" that delimits it in a field name. */
    function Code(): (c: string)
      ensures 2 <= |c| <= 3
      ensures forall i :: 0 <= i < |c| ==> 'a' <= c[i] <= 'z'
    {
      match this
      case PRE => "pre"
      case BI => "bi"
      case TRI => "tri"
    }
  }

  /** The code table is fixed, and a code (even its first letter) identifies its kind. */
  lemma CodeTable(a: SearchableType, b: SearchableType)
    ensures PRE.Code() == "pre" && BI.Code() == "bi" && TRI.Code() == "tri"
    ensures a.Code() != []
    ensures a.Code() == b.Code() <==> a == b
    ensures a.Code()[0] == b.Code()[0] <==> a == b
  {
  }

  /** The search modes a caller can request. */
  datatype SearchMode = FullTextSearch | AutoComplete {
    /** The string by which callers name the mode. */
    function Name(): string {
      match this
      case FullTextSearch => "fullTextSearch"
      case AutoComplete => "autoComplete"
    }
  }

  /** Recognises a mode name; the recognised strings are exactly the names of the two modes. */
  function ParseMode(s: string): (r: Option<SearchMode>)
    ensures r.Some? <==> exists m: SearchMode :: m.Name() == s
    ensures r.Some? ==> r.value.Name() == s
  {
    if s == FullTextSearch.Name() then Some(FullTextSearch)
    else if s == AutoComplete.Name() then Some(AutoComplete)
    else None
  }

  /** Parsing a mode's name gives the mode back, so the two names differ. */
  lemma ModeNameRoundTrip(m: SearchMode)
    ensures ParseMode(m.Name()) == Some(m)
    ensures m.Name() == FullTextSearch.Name() <==> m == FullTextSearch
  {
  }

  /** A generator's result: the gram kind and the tokens in generation order. */
  datatype GramResult = GramResult(gramType: SearchableType, arr: seq<string>)

  /** Index field name to token array (order of generation, duplicates kept). */
  type SearchableField = map<string, seq<string>>
}
