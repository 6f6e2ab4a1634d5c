/**
 * The naming convention shared by the index builder and the query builder:
 * a mode prefix, the code of the gram kind the mode stores, an underscore
 * and the caller's key, as in "fts_tri_name" and "ac_pre_name".
 */
module FieldNames {
  import opened SearchTypes

  /** The gram kind a mode stores: trigrams for full-text search, prefixes for autocomplete. */
  function StoredType(m: SearchMode): (t: SearchableType)
    ensures t != BI
    ensures t == TRI <==> m == FullTextSearch
  {
    match m
    case FullTextSearch => TRI
    case AutoComplete => PRE
  }

  /**
   * The literal that opens the field names of a mode: lowercase letters
   * closed by "_", with a first letter that differs between the two modes.
   */
  function ModePrefix(m: SearchMode): (p: string)
    ensures 3 <= |p| && p[|p| - 1] == '_'
    ensures forall i :: 0 <= i < |p| - 1 ==> 'a' <= p[i] <= 'z'
    ensures p[0] == 'f' <==> m == FullTextSearch
  {
    match m
    case FullTextSearch => "fts_"
    case AutoComplete => "ac_"
  }

  /** The index field of a key under a mode, assembled from the mode prefix and the code table. */
  function FieldName(m: SearchMode, key: string): (name: string)
    ensures |name| > |key| && name[|name| - |key|..] == key
  {
    ModePrefix(m) + StoredType(m).Code() + "_" + key
  }

  /** The field names spelled out: "fts_tri_<key>" and "ac_pre_<key>". */
  lemma FieldNameSpelling(m: SearchMode, key: string)
    ensures m == FullTextSearch ==> FieldName(m, key) == "fts_tri_" + key
    ensures m == AutoComplete ==> FieldName(m, key) == "ac_pre_" + key
  {
  }

  /** A field name taken apart: the mode it serves and the caller's key. */
  datatype FieldRef = FieldRef(mode: SearchMode, key: string)

  /** Reads a field name back; names that follow neither pattern are refused. */
  function ParseFieldName(name: string): (r: Option<FieldRef>)
    ensures r.Some? ==> FieldName(r.value.mode, r.value.key) == name
  {
    if |name| >= 8 && name[..8] == "fts_tri_" then
      assert name == "fts_tri_" + name[8..];
      FieldNameSpelling(FullTextSearch, name[8..]);
      Some(FieldRef(FullTextSearch, name[8..]))
    else if |name| >= 7 && name[..7] == "ac_pre_" then
      assert name == "ac_pre_" + name[7..];
      FieldNameSpelling(AutoComplete, name[7..]);
      Some(FieldRef(AutoComplete, name[7..]))
    else None
  }

  /** Every field name reads back as the mode and key it was built from. */
  lemma ParseFieldNameRoundTrip(m: SearchMode, key: string)
    ensures ParseFieldName(FieldName(m, key)) == Some(FieldRef(m, key))
  {
    var name := FieldName(m, key);
    FieldNameSpelling(m, key);
    if m == FullTextSearch {
      assert name[..8] == "fts_tri_";
      assert name[8..] == key;
    } else {
      assert name[0] == 'a';
      assert name[..7] == "ac_pre_";
      assert name[7..] == key;
    }
  }

  /** Two field names coincide exactly when mode and key both coincide. */
  lemma FieldNameInjective(m1: SearchMode, k1: string, m2: SearchMode, k2: string)
    ensures FieldName(m1, k1) == FieldName(m2, k2) <==> m1 == m2 && k1 == k2
  {
    ParseFieldNameRoundTrip(m1, k1);
    ParseFieldNameRoundTrip(m2, k2);
  }

  /** Injectivity for all modes of one key: the two fields of a key never collide. */
  lemma FieldNamesOfKeyDistinct(key: string)
    ensures forall m1: SearchMode, m2: SearchMode :: FieldName(m1, key) == FieldName(m2, key) ==> m1 == m2
    ensures FieldName(FullTextSearch, key) != FieldName(AutoComplete, key)
  {
    forall m1: SearchMode, m2: SearchMode
      ensures FieldName(m1, key) == FieldName(m2, key) ==> m1 == m2
    {
      FieldNameInjective(m1, key, m2, key);
    }
  }

  /**
   * Behind a fixed mode prefix, the gram-kind code determines the name: names
   * built from different codes differ, whatever the key.
   */
  lemma CodeDeterminesName(prefix: string, a: SearchableType, b: SearchableType, key: string)
    ensures prefix + a.Code() + "_" + key == prefix + b.Code() + "_" + key <==> a == b
  {
    CodeTable(a, b);
    var na, nb := prefix + a.Code() + "_" + key, prefix + b.Code() + "_" + key;
    if na == nb {
      assert na[|prefix|] == a.Code()[0];
      assert nb[|prefix|] == b.Code()[0];
    }
  }
}
