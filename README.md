# firestore-search-helper in Dafny

A model of the search-index helper for a document database that has no
full-text search of its own. The helper stores, next to a text field, extra
array fields holding search tokens, and builds query predicates that look a
token up in those arrays. It has three layers:

- **Token generators.** `createBigrams` and `createTrigrams` produce sliding
  windows of 2 and 3 characters, and `nGrams` checks `n` and dispatches to one
  of them. `generatePrefixes` lowercases the text, splits it at whitespace
  runs, drops empty words and emits every leading prefix of every word in word
  order. `prefix` tags that result with the `pre` gram kind.
- **Index builder.** `makeSearchable(key, value, modes)` returns a map from
  field names (`fts_tri_<key>`, `ac_pre_<key>`) to token arrays, one entry per
  requested mode.
- **Query builder.** `searchBy(key, value, mode, strict)` returns the
  predicate (field, operator, target) a query filters on.

Modules, one per source file, plus one for the naming convention the index
and query builders share:

| file | module | models |
|---|---|---|
| `search_types.dfy` | `SearchTypes` | `src/types/search.ts`: the gram-kind code table, the two modes, the field map type |
| `n_grams.dfy` | `NGramAlgorithms` | `src/algorithms/n-grams.ts` |
| `prefix.dfy` | `PrefixAlgorithms` | `src/algorithms/prefix.ts` |
| `field_names.dfy` | `FieldNames` | the `<mode>_<code>_<key>` naming used in `makeSearchable.ts` and `searchBy.ts` |
| `make_searchable.dfy` | `Indexing` | `src/search/makeSearchable.ts` |
| `search_by.dfy` | `Querying` | `src/search/searchBy.ts` |

The two array-filling generators and the prefix generator are methods that
fill a `new string[..]` array in `for` loops, as the source does. Each is
proved equal to a reference function: `SlidingWindows` for the n-grams and
`PrefixesOf` (= `AllPrefixes(Words(ToLowerCase(input)))`) for the prefixes.
The properties are then proved about those functions. The three loops of
`generatePrefixes` are split across three methods, so that each loop is
proved on its own. `CountPrefixes` is the counting loop. `FillPrefixes` is the
loop over the words. `FillWordPrefixes` is the inner loop over one word, and it
writes through the same array and cursor. `makeSearchable` is a
method that builds its map step by step. It is proved equal to
`SearchFieldsFor`, a reference definition characterised by its postconditions.
`searchBy` is pure and is a function. It uses `SlidingWindows` where the
source calls `createTrigrams`, which `CreateTrigrams` is proved to compute.

Modelling choices:

- Strings are `seq<char>`.
- The `nGrams` exception is a `Failure` carrying the thrown message.
- Mode names are plain strings at run time, as the repository's tests pass them. Unknown
  names are ignored by the index builder and treated as autocomplete by the
  query builder.
- `toLowerCase` is ASCII lowercasing.
- `\s` is the fixed set of ECMAScript WhiteSpace and LineTerminator code
  points.
- The database's `where` becomes the datatype `Predicate`.

## Model

| member | source | states |
|---|---|---|
| SearchTypes.SearchableType.Code | src/types/search.ts:12-16 | a gram-kind code is two or three lowercase letters, so it holds no "_", the separator around it in a field name; CodeTable gives the table itself |
| SearchTypes.CodeTable | src/types/search.ts:12-16 | the codes are exactly "pre", "bi", "tri"; they are pairwise distinct, already in their first letter |
| SearchTypes.ParseMode | src/types/search.ts:1 | exactly the two mode names are recognised, and a recognised string is the name of the mode returned |
| SearchTypes.ModeNameRoundTrip | src/types/search.ts:1 | parsing a mode's name gives the mode back, so the names of the two modes differ |
| NGramAlgorithms.SlidingWindows | src/algorithms/n-grams.ts:62-73 | the windows of a text number max(0, L-n+1) for a text of length L and window i is text[i..i+n] |
| NGramAlgorithms.CreateBigrams | src/algorithms/n-grams.ts:62-73 | the array filled in the loop equals SlidingWindows(text, 2): length max(0, L-1) for a text of length L, element i is text[i..i+2] and has length 2 |
| NGramAlgorithms.CreateTrigrams | src/algorithms/n-grams.ts:96-107 | the array filled in the loop equals SlidingWindows(text, 3): length max(0, L-2) for a text of length L, element i is text[i..i+3] and has length 3 |
| NGramAlgorithms.NGrams | src/algorithms/n-grams.ts:30-39 | fails with "Value of n must be either 2 or 3" iff n is neither 2 nor 3; n = 2 gives BI with the bigrams, n = 3 gives TRI with the trigrams |
| NGramAlgorithms.WindowEdgeCases | src/algorithms/n-grams.ts:97-98 | a text shorter than n has no window; a text of exactly n characters is its only window |
| NGramAlgorithms.WindowMembership | src/algorithms/n-grams.ts:102-104 | a token is among the windows iff it has length n and occurs at some offset of the text |
| NGramAlgorithms.BigramExample | src/algorithms/n-grams.test.ts:7-13 | "apple" gives ["ap","pp","pl","le"] |
| NGramAlgorithms.BananaTrigrams | src/algorithms/n-grams.test.ts:33-39 | "banana" gives ["ban","ana","nan","ana"], the repeat kept |
| NGramAlgorithms.TestTrigrams | src/search/searchBy.test.ts:37-55 | "test" gives ["tes","est"] |
| NGramAlgorithms.ShortTextExamples | src/algorithms/n-grams.test.ts:15-62 | "a", "be" and "" give no windows; "hi" and "cat" give themselves |
| PrefixAlgorithms.ToLowerCase | src/algorithms/prefix.ts:47 | length kept, no capital left, each capital A-Z becomes the letter 32 code points later (its lowercase a-z), non-capitals unchanged, whitespace stays whitespace and nothing else becomes whitespace |
| PrefixAlgorithms.LeadingWord | src/algorithms/prefix.ts:47 | the longest whitespace-free leading part of a text: a prefix of it, free of whitespace, and followed by whitespace or the end |
| PrefixAlgorithms.Words | src/algorithms/prefix.ts:47 | a text of length L has at most L words; WordsShape, NoWordsIffBlank, WordsOfLowerCased, SingleWord and WordsAroundSpace characterise the split |
| PrefixAlgorithms.WordsShape | src/algorithms/prefix.ts:47 | every word of the split is non-empty and free of whitespace |
| PrefixAlgorithms.NoWordsIffBlank | src/algorithms/prefix.ts:47-49 | a text has no words iff it is whitespace only, the empty text included |
| PrefixAlgorithms.WordsOfLowerCased | src/algorithms/prefix.ts:47 | the words of a lowercased text are lowercase |
| PrefixAlgorithms.WordPrefixes | src/algorithms/prefix.ts:62-64 | a word has as many prefixes as characters |
| PrefixAlgorithms.WordPrefixesElements | src/algorithms/prefix.ts:62-64 | prefix j of a word is its leading part of length j+1, and the last prefix is the word |
| PrefixAlgorithms.AllPrefixes | src/algorithms/prefix.ts:55-65 | the number of prefixes of a word list is the sum of the word lengths, the size the array is allocated with; PrefixMembership and AllPrefixesConcat give its contents |
| PrefixAlgorithms.SumLengths | src/algorithms/prefix.ts:50-53 | the counted total is at least the length of every word |
| PrefixAlgorithms.PrefixesOf | src/algorithms/prefix.ts:45-68 | the result is empty iff the input is whitespace only, the empty string included; TokensShape, PrefixMembership and the whitespace lemmas below give its contents |
| PrefixAlgorithms.AllPrefixesConcat | src/algorithms/prefix.ts:60-65 | the prefixes of two word lists in sequence are the prefixes of the first followed by those of the second |
| PrefixAlgorithms.WordPrefixMembership | src/algorithms/prefix.ts:62-64 | a token is a prefix of a word iff it is a non-empty leading part of the word |
| PrefixAlgorithms.PrefixMembership | src/algorithms/prefix.ts:60-65 | a token is emitted iff it is a non-empty leading part of one of the words |
| PrefixAlgorithms.TokensShape | src/algorithms/prefix.ts:47-63 | every emitted token is non-empty, whitespace-free and lowercase |
| PrefixAlgorithms.WordsAroundSpace | src/algorithms/prefix.ts:47 | splitting a + [c] + b at a whitespace c gives the words of a followed by the words of b |
| PrefixAlgorithms.SingleWord | src/algorithms/prefix.ts:47 | a non-empty whitespace-free text is its own only word |
| PrefixAlgorithms.PrefixesAroundSpace | src/algorithms/prefix.ts:47-65 | whitespace between two parts gives the prefixes of the left part followed by those of the right |
| PrefixAlgorithms.LeadingSpaceIgnored | src/algorithms/prefix.test.ts:63-72 | leading whitespace does not change the result |
| PrefixAlgorithms.TrailingSpaceIgnored | src/algorithms/prefix.test.ts:63-72 | trailing whitespace does not change the result |
| PrefixAlgorithms.RepeatedSpaceCollapses | src/algorithms/prefix.test.ts:51-61 | two whitespace characters between words act like one |
| PrefixAlgorithms.SpaceKindIrrelevant | src/algorithms/prefix.test.ts:51-61 | which whitespace character separates two parts does not matter |
| PrefixAlgorithms.OneWordPrefixes | src/algorithms/prefix.test.ts:74-80 | a single whitespace-free word gives the prefixes of its lowercase form |
| PrefixAlgorithms.LowerCaseExamples | src/algorithms/prefix.test.ts:5-14 | "Hello" and "World" lowercase to "hello" and "world" |
| PrefixAlgorithms.CapitalisedWordExamples | src/algorithms/prefix.test.ts:5-14 | "Hello" gives "h", "he", "hel", "hell", "hello" and "World" gives "w", "wo", "wor", "worl", "world" |
| PrefixAlgorithms.HelloWorldSplit | src/algorithms/prefix.test.ts:5-14 | "Hello World" gives the result for "Hello" followed by the result for "World" |
| PrefixAlgorithms.HelloWorldExample | src/algorithms/prefix.test.ts:5-14 | "Hello World" gives the ten tokens "h" to "hello" then "w" to "world" |
| PrefixAlgorithms.TestPrefixes | src/search/makeSearchable.test.ts:66-69 | "test" gives "t", "te", "tes", "test" |
| PrefixAlgorithms.BlankExamples | src/algorithms/prefix.test.ts:16-30 | "" and "  \n\t  " give no prefixes |
| PrefixAlgorithms.AllPrefixesIndex | src/algorithms/prefix.ts:57-64 | the prefix of length j of word i sits at position (sum of the lengths of the words before i) + j - 1, where the running cursor writes it |
| PrefixAlgorithms.CountPrefixes | src/algorithms/prefix.ts:50-53 | the counting loop returns the sum of the word lengths |
| PrefixAlgorithms.FillWordPrefixes | src/algorithms/prefix.ts:61-64 | the inner loop writes the prefixes of the word, shortest first, into the word-length range from the cursor on, leaves every slot before and after that range unchanged and advances the cursor by the word length |
| PrefixAlgorithms.FillPrefixes | src/algorithms/prefix.ts:50-67 | an array sized by the counting loop and filled word by word holds exactly AllPrefixes(words); after each word the filled part is the prefixes of the words so far |
| PrefixAlgorithms.GeneratePrefixes | src/algorithms/prefix.ts:45-68 | returns PrefixesOf(input); its length is the sum of the word lengths; every token is non-empty, whitespace-free and lowercase; empty iff the input is whitespace only |
| PrefixAlgorithms.Prefix | src/algorithms/prefix.ts:17-19 | the type is PRE and the array is the generated prefixes |
| FieldNames.StoredType | src/search/makeSearchable.ts:14-21 | full-text search stores trigrams and autocomplete stores prefixes; bigrams are never stored |
| FieldNames.ModePrefix | src/search/makeSearchable.ts:15-21 | a mode prefix is lowercase letters closed by "_", starting with "f" exactly for full-text search |
| FieldNames.FieldName | src/search/makeSearchable.ts:15 | a field name ends with the caller's key and is longer than it |
| FieldNames.FieldNameSpelling | src/search/searchBy.ts:47 | the field names are "fts_tri_" + key and "ac_pre_" + key |
| FieldNames.ParseFieldName | src/search/makeSearchable.ts:21 | a name that reads back as a mode and key is the field name of that mode and key |
| FieldNames.ParseFieldNameRoundTrip | src/search/makeSearchable.ts:15-21 | every field name reads back as the mode and key it was built from |
| FieldNames.FieldNameInjective | src/search/makeSearchable.ts:15-21 | two field names are equal iff their modes and keys are equal |
| FieldNames.FieldNamesOfKeyDistinct | src/search/makeSearchable.ts:15-21 | the full-text and autocomplete fields of a key never collide |
| FieldNames.CodeDeterminesName | src/types/search.ts:13-15 | behind the same prefix and before the same key, names built from different type codes differ |
| Indexing.IndexTokens | src/search/makeSearchable.ts:14-22 | a value gets no full-text tokens iff it is shorter than three characters, and no autocomplete tokens iff it is whitespace only |
| Indexing.RequestedModes | src/search/makeSearchable.ts:13-19 | a mode is requested iff its name appears in the list |
| Indexing.SearchFieldsFor | src/search/makeSearchable.ts:11-24 | a mode's field is present iff the mode is named in the request, it holds that mode's tokens (trigrams or word prefixes of the value), and no other field is present |
| Indexing.MakeSearchable | src/search/makeSearchable.ts:6-25 | the map built step by step equals SearchFieldsFor; asking for trigrams with n = 3 never reaches the error |
| Indexing.EmptyIndexIffNoMode | src/search/makeSearchable.ts:11-24 | the index is empty iff the request names no known mode |
| Indexing.EmptyRequestExamples | src/search/makeSearchable.test.ts:90-103 | an empty request and a request naming only "someOtherType" give an empty map |
| Indexing.BothModesFields | src/search/makeSearchable.test.ts:66-88 | with both modes requested the index is exactly the two fields of the key with their tokens |
| Indexing.BothModesExample | src/search/makeSearchable.test.ts:66-88 | "test" under key "title" with both modes gives {"ac_pre_title": ["t","te","tes","test"], "fts_tri_title": ["tes","est"]} |
| Indexing.EmptyValueFields | src/search/makeSearchable.test.ts:105-121 | an empty value is given an empty token array under every field |
| Querying.QueryMode | src/search/searchBy.ts:46 | the query runs as full-text search iff the mode is exactly "fullTextSearch"; a recognised mode runs as itself |
| Querying.SearchBy | src/search/searchBy.ts:40-55 | the field is the shared field name of the query's mode; full-text: the target is the trigrams of the value and the operator is the single-token one iff strict; otherwise the single-token operator with the raw value; the operator passed on is "array-contains-any" exactly for a non-strict full-text query and "array-contains" otherwise |
| Querying.StrictOnlyChangesOperator | src/search/searchBy.ts:49 | strict changes only the operator of a full-text query and has no effect in any other mode |
| Querying.QueryMatchesIndex | src/search/searchBy.ts:47-52 | for a recognised mode that was indexed, the query field is a field the index builder wrote, and a full-text query carries exactly the stored tokens |
| Querying.AutoCompleteHit | src/search/searchBy.ts:51-53 | an autocomplete term is among the stored tokens iff it is a non-empty leading part of a lowercase word of the value |
| Querying.AutoCompleteMissesUnnormalisedTerm | src/search/searchBy.ts:53 | an empty term, or one with a capital or whitespace, is never among the stored autocomplete tokens |
| Querying.QueryFieldNames | src/search/searchBy.ts:47-52 | the query field is "fts_tri_" + key for "fullTextSearch" and "ac_pre_" + key for every other mode string |

## Left out

- The database call `where` and the `QueryConstraint` it returns are not modelled. The query builder returns a plain `Predicate` value instead. How the database evaluates `array-contains` and `array-contains-any`, including what it does with a token array as the operand of the single-token operator, is not modelled.
- PrefixAlgorithms.ToLowerCase: lowercases ASCII letters only. JavaScript's `toLowerCase` also maps non-ASCII capitals and can change the length of a string. Neither is modelled, because Unicode case mapping tables are outside the model.
- PrefixAlgorithms.Words: implements the split on the regular expression `/\s+/` followed by the empty-word filter as a recursive function over the fixed ECMAScript whitespace set. The regular-expression engine itself is not modelled.
- Strings are sequences of Dafny characters (Unicode scalar values), not UTF-16 code units. Surrogate pairs are not modelled, so the windows and prefixes of text outside the Basic Multilingual Plane may differ from the source's.
- NGramAlgorithms.NGrams: takes an integer `n`. Non-integer or non-numeric JavaScript values, which the source also rejects, are not modelled.
- `src/index.ts` is not part of this model. It only re-exports names.
- The iteration order of the JavaScript object keys that `makeSearchable` returns is not modelled, because a Dafny `map` is unordered.
- The pre-allocation and linear-time claims in the doc comments are performance statements, not behaviour, and are not modelled.
- The `Searchable` record type in `src/types/search.ts` is not modelled, because no core function uses it.
