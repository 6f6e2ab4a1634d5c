/**
 * The query builder: for a key, a search term and a mode it builds the
 * predicate a document query filters on — the index field to look in, the
 * array operator and the value to look for.
 */
module Querying {
  import opened SearchTypes
  import opened NGramAlgorithms
  import opened PrefixAlgorithms
  import opened FieldNames
  import opened Indexing

  /** The two array operators the builder emits, by their wire names. */
  datatype Operator = ArrayContains | ArrayContainsAny {
    function Name(): string {
      match this
      case ArrayContains => "array-contains"
      case ArrayContainsAny => "array-contains-any"
    }
  }

  /** What the predicate compares against: the raw term, or a token array. */
  datatype Target = Text(text: string) | Tokens(tokens: seq<string>)

  /** A query predicate: field, operator and target, as handed to the database's where. */
  datatype Predicate = Where(field: string, op: Operator, target: Target)

  /** The mode a query runs in: full-text search for its exact name, autocomplete for any other string. */
  function QueryMode(mode: string): (m: SearchMode)
    ensures m == FullTextSearch <==> mode == FullTextSearch.Name()
    ensures ParseMode(mode).Some? ==> ParseMode(mode) == Some(m)
  {
    if mode == FullTextSearch.Name() then FullTextSearch else AutoComplete
  }

  /**
   * Builds the predicate: for "fullTextSearch" the trigrams of the term
   * against "fts_tri_<key>", with the single-token operator when strict and
   * the any-token operator otherwise; for every other mode the raw term
   * against "ac_pre_<key>" with the single-token operator.
   */
  function SearchBy(key: string, value: string, mode: string, strict: bool := true): (p: Predicate)
    ensures p.field == FieldName(QueryMode(mode), key)
    ensures mode == FullTextSearch.Name() ==>
              p.target == Tokens(IndexTokens(FullTextSearch, value)) && (p.op == ArrayContains <==> strict)
    ensures mode != FullTextSearch.Name() ==> p.op == ArrayContains && p.target == Text(value)
    ensures p.op.Name() == if mode == "fullTextSearch" && !strict then "array-contains-any" else "array-contains"
  {
    if mode == "fullTextSearch" then
      var field := "fts_" + TRI.Code() + "_" + key;
      var matches := SlidingWindows(value, 3);
      var matchBy := if strict then ArrayContains else ArrayContainsAny;
      Where(field, matchBy, Tokens(matches))
    else
      var field := "ac_" + PRE.Code() + "_" + key;
      Where(field, ArrayContains, Text(value))
  }

  /** The strict flag changes the operator of a full-text query and nothing else. */
  lemma StrictOnlyChangesOperator(key: string, value: string, mode: string)
    ensures SearchBy(key, value, mode, true).field == SearchBy(key, value, mode, false).field
    ensures SearchBy(key, value, mode, true).target == SearchBy(key, value, mode, false).target
    ensures mode != FullTextSearch.Name() ==> SearchBy(key, value, mode, true) == SearchBy(key, value, mode, false)
    ensures mode == FullTextSearch.Name() ==>
              SearchBy(key, value, mode, true).op == ArrayContains && SearchBy(key, value, mode, false).op == ArrayContainsAny
  {
  }

  /**
   * Index and query agree: for a recognised mode that was indexed, the query
   * looks in a field the index builder wrote, and a full-text query carries
   * exactly the tokens stored there.
   */
  lemma QueryMatchesIndex(key: string, value: string, mode: string, modes: seq<string>, strict: bool)
    requires mode in modes && ParseMode(mode).Some?
    ensures SearchBy(key, value, mode, strict).field in SearchFieldsFor(key, value, modes)
    ensures mode == FullTextSearch.Name() ==>
              SearchBy(key, value, mode, strict).target
              == Tokens(SearchFieldsFor(key, value, modes)[SearchBy(key, value, mode, strict).field])
  {
    var m := ParseMode(mode).value;
    assert QueryMode(mode) == m;
  }

  /**
   * An autocomplete query for a term hits a document indexed for autocomplete
   * exactly when the term is a non-empty prefix of one of the document's
   * lowercase words.
   */
  lemma AutoCompleteHit(key: string, term: string, value: string, modes: seq<string>)
    requires AutoComplete.Name() in modes
    ensures SearchBy(key, term, AutoComplete.Name()).field in SearchFieldsFor(key, value, modes)
    ensures term in SearchFieldsFor(key, value, modes)[SearchBy(key, term, AutoComplete.Name()).field]
            <==> exists w :: w in Words(ToLowerCase(value)) && IsWordPrefix(term, w)
  {
    ModeNameRoundTrip(AutoComplete);
    PrefixMembership(Words(ToLowerCase(value)), term);
  }

  /** An autocomplete query for a term with an uppercase letter or whitespace never hits. */
  lemma AutoCompleteMissesUnnormalisedTerm(key: string, term: string, value: string, modes: seq<string>)
    requires AutoComplete.Name() in modes
    requires !IsLowerCased(term) || !NoSpace(term) || term == []
    ensures term !in SearchFieldsFor(key, value, modes)[SearchBy(key, term, AutoComplete.Name()).field]
  {
    AutoCompleteHit(key, term, value, modes);
    if term in PrefixesOf(value) {
      TokensShape(value, term);
    }
  }

  /**
   * The field names spelled out: "fts_tri_<key>" for full-text search and
   * "ac_pre_<key>" for every other mode, misspelt mode names included.
   */
  lemma QueryFieldNames(key: string, value: string, mode: string, strict: bool)
    ensures mode == "fullTextSearch" ==> SearchBy(key, value, mode, strict).field == "fts_tri_" + key
    ensures mode != "fullTextSearch" ==> SearchBy(key, value, mode, strict).field == "ac_pre_" + key
  {
    FieldNameSpelling(QueryMode(mode), key);
  }
}
