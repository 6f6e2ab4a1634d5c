/**
 * The index builder: for a key, a value and the requested search modes it
 * assembles the map from index field names to the token arrays stored under
 * them.
 */
module Indexing {
  import opened SearchTypes
  import opened NGramAlgorithms
  import opened PrefixAlgorithms
  import opened FieldNames

  /**
   * The tokens a mode stores for a value: trigrams for full-text search,
   * word prefixes for autocomplete. A value gets no tokens exactly when it is
   * shorter than three characters (full-text search) or whitespace only
   * (autocomplete).
   */
  function IndexTokens(m: SearchMode, value: string): (tokens: seq<string>)
    ensures m == FullTextSearch ==> (tokens == [] <==> |value| < 3)
    ensures m == AutoComplete ==> (tokens == [] <==> AllSpace(value))
  {
    match m
    case FullTextSearch => SlidingWindows(value, 3)
    case AutoComplete => PrefixesOf(value)
  }

  /** The modes named in a request; strings naming no mode are ignored, repeats count once. */
  function RequestedModes(modes: seq<string>): (ms: set<SearchMode>)
    ensures forall m: SearchMode :: m in ms <==> m.Name() in modes
  {
    (if FullTextSearch.Name() in modes then {FullTextSearch} else {}) +
    (if AutoComplete.Name() in modes then {AutoComplete} else {})
  }

  /**
   * Reference definition of the index of a value: one field per requested
   * mode, named by the shared convention and holding that mode's tokens.
   */
  function SearchFieldsFor(key: string, value: string, modes: seq<string>): (fields: SearchableField)
    ensures forall m: SearchMode :: FieldName(m, key) in fields <==> m.Name() in modes
    ensures forall m: SearchMode :: FieldName(m, key) in fields ==> fields[FieldName(m, key)] == IndexTokens(m, value)
    ensures forall name :: name in fields ==> name == FieldName(FullTextSearch, key) || name == FieldName(AutoComplete, key)
  {
    FieldNamesOfKeyDistinct(key);
    var withFullText: SearchableField :=
      if FullTextSearch.Name() in modes then map[FieldName(FullTextSearch, key) := IndexTokens(FullTextSearch, value)]
      else map[];
    if AutoComplete.Name() in modes then withFullText[FieldName(AutoComplete, key) := IndexTokens(AutoComplete, value)]
    else withFullText
  }

  /**
   * Starts from an empty map and, for each recognised mode in the request,
   * runs that mode's generator and stores its tokens under "fts_" or "ac_",
   * the generator's type code, "_" and the key. Trigrams are asked for with
   * n = 3, so the generator's error case is never reached.
   */
  method MakeSearchable(key: string, value: string, modes: seq<string>) returns (searchFields: SearchableField)
    ensures searchFields == SearchFieldsFor(key, value, modes)
  {
    searchFields := map[];
    ghost var fts := FieldName(FullTextSearch, key);
    ghost var ac := FieldName(AutoComplete, key);
    FieldNamesOfKeyDistinct(key);
    if "fullTextSearch" in modes {
      var res := NGrams(3, value);
      var fieldKey := "fts_" + res.value.gramType.Code() + "_" + key;
      searchFields := searchFields[fieldKey := res.value.arr];
    }
    assert searchFields.Keys == if "fullTextSearch" in modes then {fts} else {};
    if "autoComplete" in modes {
      var res := Prefix(value);
      var fieldKey := "ac_" + res.gramType.Code() + "_" + key;
      searchFields := searchFields[fieldKey := res.arr];
    }
    ghost var spec := SearchFieldsFor(key, value, modes);
    assert searchFields.Keys == spec.Keys by {
      assert fts in spec <==> "fullTextSearch" in modes;
      assert ac in spec <==> "autoComplete" in modes;
    }
    assert forall name :: name in spec ==> searchFields[name] == spec[name] by {
      assert fts in spec ==> spec[fts] == IndexTokens(FullTextSearch, value);
      assert ac in spec ==> spec[ac] == IndexTokens(AutoComplete, value);
    }
  }

  /** The index is empty exactly when the request names no known mode. */
  lemma EmptyIndexIffNoMode(key: string, value: string, modes: seq<string>)
    ensures SearchFieldsFor(key, value, modes) == map[] <==> RequestedModes(modes) == {}
  {
    var fields := SearchFieldsFor(key, value, modes);
    if RequestedModes(modes) == {} {
      assert FieldName(FullTextSearch, key) !in fields && FieldName(AutoComplete, key) !in fields;
      assert fields.Keys == {};
    } else {
      var m :| m in RequestedModes(modes);
      assert FieldName(m, key) in fields;
    }
  }

  /** Worked example: an empty request, or one naming no known mode, gives an empty index. */
  lemma EmptyRequestExamples()
    ensures SearchFieldsFor("anyKey", "anyValue", []) == map[]
    ensures SearchFieldsFor("anyKey", "anyValue", ["someOtherType"]) == map[]
  {
    EmptyIndexIffNoMode("anyKey", "anyValue", []);
    EmptyIndexIffNoMode("anyKey", "anyValue", ["someOtherType"]);
  }

  /** With both modes requested, the index holds exactly the two fields of the key. */
  lemma BothModesFields(key: string, value: string, modes: seq<string>)
    requires FullTextSearch.Name() in modes && AutoComplete.Name() in modes
    ensures SearchFieldsFor(key, value, modes)
         == map[FieldName(AutoComplete, key) := PrefixesOf(value), FieldName(FullTextSearch, key) := SlidingWindows(value, 3)]
  {
    FieldNamesOfKeyDistinct(key);
  }

  /** The two fields of the key "title", spelled out. */
  lemma TitleFieldNames()
    ensures FieldName(AutoComplete, "title") == "ac_pre_title"
    ensures FieldName(FullTextSearch, "title") == "fts_tri_title"
  {
    FieldNameSpelling(AutoComplete, "title");
    FieldNameSpelling(FullTextSearch, "title");
  }

  /** Worked example: "test" indexed under "title" for both modes. */
  lemma BothModesExample()
    ensures SearchFieldsFor("title", "test", ["autoComplete", "fullTextSearch"])
         == map["ac_pre_title" := ["t", "te", "tes", "test"], "fts_tri_title" := ["tes", "est"]]
  {
    var modes := ["autoComplete", "fullTextSearch"];
    assert FullTextSearch.Name() in modes && AutoComplete.Name() in modes;
    BothModesFields("title", "test", modes);
    TitleFieldNames();
    TestPrefixes();
    TestTrigrams();
  }

  /** An empty value gets an empty token array under every field it is given. */
  lemma EmptyValueFields(key: string, modes: seq<string>)
    ensures forall name :: name in SearchFieldsFor(key, "", modes) ==> SearchFieldsFor(key, "", modes)[name] == []
  {
  }
}
