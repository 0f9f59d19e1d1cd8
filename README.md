# Query-builder codec, modelled in Dafny

This project models the query-parameter codec of `DclQueryBuilder` and proves properties of it.

- **Encoder** (`queryToHttpQueryParams`) turns a query into a flat parameter object:
  - page and limit are written only when truthy;
  - the sort clauses become one comma-joined string, with `-` marking a descending key;
  - each filter key gets an array of `operator ++ text(value)` strings.
- **Decoder** (`httpQueryParamsToQuery`) reads such an object back:
  - page and limit are read as numbers, falling back to defaults;
  - the sort string is split on commas;
  - every key that is not reserved is a filter key;
  - a string value may optionally be split on commas;
  - each filter string is parsed by finding the longest operator token it starts with, then coercing the rest to a boolean, null, undefined, number or string.
- **Operator mappers** (`filterOperatorToSqlOperator`, `filterOperatorToMongoOperator`).
- **Operator table**: the `DclFilterOperator` enum and the `POSSIBLE_OPERATORS` list, sorted longest token first.
- **Options**: the builder's option merge.

Modules, one file each:

| file | module | contents |
|---|---|---|
| `wrappers.dfy` | `Wrappers` | `Option` and `Result` |
| `text.dfy` | `Text` | `trim`, `startsWith`, `split(',')`, `join(',')`, ASCII `toLowerCase` |
| `numbers.dfy` | `Numbers` | finite decimal numbers, their rendering, `parseFloat`, unary `+` on strings |
| `filter_operator.dfy` | `FilterOperators` | the operator enum and its tokens |
| `records.dfy` | `Records` | queries, sorts, filters, values, and the parameter object as an ordered list of entries |
| `builder_options.dfy` | `BuilderOptions` | the constructor's option merge and the decoder's options |
| `sql_operator.dfy` | `SqlOperator` | the SQL and Mongo operator mappers |
| `encoder.dfy` | `Encoder` | `queryToHttpQueryParams` |
| `operator_detection.dfy` | `OperatorDetection` | `POSSIBLE_OPERATORS` and longest-prefix detection |
| `decoder.dfy` | `Decoder` | `httpQueryParamsToQuery`, `parseSortHttpQueryParams`, `parseFilterHttpQueryParams`, `parseFilterStr` |
| `round_trip.dfy` | `RoundTrip` | decoding an encoded query gives the query back |

**Imperative and pure parts.** The source builds these results step by step, so they are Dafny methods with loops:
- `Encoder.QueryToHttpQueryParams`, with its filter loop `Encoder.PushFilters` and that loop's body `Encoder.PushFilter`;
- `Decoder.ParseSortHttpQueryParams`, `Decoder.ParseFilterHttpQueryParams` and `Decoder.ParseFilterStr`;
- their helpers `Decoder.FindOperator`, `Decoder.ParseFilterEntry`, `Decoder.ParseFilterStrs` and `Decoder.HttpQueryParamsToQuery`.

Each method is proved equal to a specification function. The properties are proved about those functions:
- `Encoder.Encode`;
- `Decoder.ParseSortSpec`, `Decoder.ParseFilters`, `Decoder.ParseFilterSpec`;
- `Decoder.Decode`.

The option merge and the SQL mapper are pure functions, as in the source.

**Errors.** Each thrown exception becomes an `Err` value:
- `OperatorNotRecognized` and `NotImplemented` carry the messages of the two `Error`s the source throws.
- `TypeError` is the runtime failure the source meets in three cases:
  - `push` on a truthy value that is not an array (the encoder's filter loop);
  - `match` on a number (a filter value in the decoder);
  - `split` on a non-zero number or a non-empty array (the sort value in the decoder).

**Behaviours reproduced as the code has them:**
- The decoder reads page, limit and sort from the literal keys `_page`, `_limit` and `_sort`, whatever keys are configured. Only the exclusion of filter keys uses the configured keys. See `Decoder.ConfiguredPageKeyIgnored`.
- The operator is detected on the trimmed filter string, but the value is cut from the untrimmed string. For example, `" >5"` detects `>`, and cutting one character from `" >5"` leaves the value `">5"`, which stays a string. See `Decoder.ParseFilterCutsUntrimmed`.
- The comma heuristic's pattern `,[=:!<>@]*` matches every comma, because the operator part may be empty. A string value is therefore split whenever splitting is enabled and the string contains a comma. See `Decoder.EntryStringsSplitOnComma`.

## Model

| member | source | states |
|---|---|---|
| FilterOperators.Token | projects/query-builder/src/filter-operator.ts:1-9 | every operator's token has one or two characters, all from `= ! < > @` |
| FilterOperators.AllOperatorsComplete | projects/query-builder/src/filter-operator.ts:1-9 | the enum has exactly seven members, all distinct, and every operator is among them |
| FilterOperators.OperatorSymbolsAreNotAlphanumeric | projects/query-builder/src/filter-operator.ts:2-8 | no token character is alphanumeric or white space |
| FilterOperators.TokenInjective | projects/query-builder/src/filter-operator.ts:2-8 | two operators have the same token exactly when they are the same operator |
| FilterOperators.TokenPrefixes | projects/query-builder/src/filter-operator.ts:4-7 | the only proper prefix relations between tokens are `>` of `>=` and `<` of `<=` |
| OperatorDetection.PossibleOperatorsStableSorted | projects/query-builder/src/query-builder.ts:22-30 | `POSSIBLE_OPERATORS` is the enum order stably sorted by decreasing token length: the two-character tokens, then the one-character ones, each group in enum order |
| OperatorDetection.PossibleOperatorsPermutation | projects/query-builder/src/query-builder.ts:22-30 | the sorted list is a permutation of the seven operators |
| OperatorDetection.PossibleOperatorsByLength | projects/query-builder/src/query-builder.ts:30 | token lengths never increase along the list |
| OperatorDetection.PossibleOperatorsComplete | projects/query-builder/src/query-builder.ts:22-30 | every operator is in the list |
| OperatorDetection.FirstTokenPrefixFinds | projects/query-builder/src/query-builder.ts:194 | `find` returns nothing exactly when no token of the list starts the string; otherwise it returns a member whose token starts the string and before which no token does |
| OperatorDetection.DetectOperatorIsLongest | projects/query-builder/src/query-builder.ts:22-30 | detection fails exactly when no token starts the string; otherwise the detected token starts it, and every other token that starts it is strictly shorter |
| OperatorDetection.DetectTokenPrefix | projects/query-builder/src/query-builder.ts:194 | a token followed by text detects that token, unless the token is `>` or `<` and the text starts with `=` |
| OperatorDetection.DetectNothing | projects/query-builder/src/query-builder.ts:194 | a string that is empty or does not start with an operator symbol detects no operator |
| BuilderOptions.MergeOptions | projects/query-builder/src/query-builder.ts:16-38 | each key is the supplied one when supplied and the default (`_page`, `_limit`, `_sort`) otherwise |
| BuilderOptions.MergeOptionsExtremes | projects/query-builder/src/query-builder.ts:36-38 | supplying every key gives exactly those keys; supplying none gives the defaults |
| SqlOperator.FilterOperatorToSqlOperator | projects/query-builder/src/query-builder.ts:40-73 | the result is Ok exactly for the seven tokens, otherwise "Operator not recognized". `==` gives `IS` with null and `=` otherwise; `!=` gives `IS NOT` with null and `<>` otherwise; `@=` gives `LIKE`; `>`, `<`, `>=`, `<=` are returned verbatim |
| SqlOperator.SqlNullOnlyAffectsEquality | projects/query-builder/src/query-builder.ts:41-70 | for operators other than `==` and `!=`, the value does not change the result |
| SqlOperator.FilterOperatorToMongoOperator | projects/query-builder/src/query-builder.ts:75-77 | fails with "Not Implemented" for every input |
| Records.LookupAbsent | projects/query-builder/src/query-builder.ts:100 | reading a key gives undefined exactly when the object lacks it |
| Records.LookupConcat | projects/query-builder/src/query-builder.ts:118 | a key is read from the first of two concatenated entry lists that holds it |
| Records.AssignLookup | projects/query-builder/src/query-builder.ts:84-102 | after an assignment the key reads as the new value, and every other key reads as before |
| Records.AssignKeys | projects/query-builder/src/query-builder.ts:84-102 | assigning keeps the key order, appending the key when it is new |
| Records.AssignUnique | projects/query-builder/src/query-builder.ts:84-102 | assigning keeps the keys unique |
| Records.AssignTwice | projects/query-builder/src/query-builder.ts:102-104 | a second assignment to a key overrides the first |
| Encoder.QueryToHttpQueryParams | projects/query-builder/src/query-builder.ts:79-109 | the loop computes `Encode`: page, limit and sort entries, then one array per filter key |
| Encoder.PushFilters | projects/query-builder/src/query-builder.ts:98-106 | the `forEach` over the filters computes `AddFilters`: every filter in order, stopping at the first TypeError |
| Encoder.PushFilter | projects/query-builder/src/query-builder.ts:100-104 | one turn computes `AddFilter`: an absent or falsy entry becomes `[]` before the push, and pushing onto a string, a number or an inherited `Object.prototype` member is a TypeError |
| Encoder.SortTokensCommaFree | projects/query-builder/src/query-builder.ts:92-93 | a sort token holds a comma only when its key does; for a key not itself starting with `-`, the token starts with `-` exactly when the order is DESC |
| Encoder.SortTokenOfMissingOrder | projects/query-builder/src/query-builder.ts:91-93 | a clause without an order is written exactly as the ASC clause on its key |
| Encoder.SortParamSplits | projects/query-builder/src/query-builder.ts:92-94 | the comma-joined sort string splits back into its tokens when no key holds a comma |
| Encoder.EncodeEmpty | projects/query-builder/src/query-builder.ts:79-109 | the empty query encodes to the empty object |
| Encoder.HeadParamsLookup | projects/query-builder/src/query-builder.ts:83-95 | under the configured keys: page and limit are present exactly when truthy; the sort string is present exactly when sortBy is non-empty |
| Encoder.HeadParamsReserved | projects/query-builder/src/query-builder.ts:83-95 | before the filter loop, every entry has a reserved key and holds no array |
| Encoder.AddFiltersFails | projects/query-builder/src/query-builder.ts:99-105 | the filter loop fails exactly when some filter key reads as a truthy non-array (an own entry, or an absent `Object.prototype` name such as `constructor`), and it fails with a TypeError |
| Encoder.EncodeFails | projects/query-builder/src/query-builder.ts:98-106 | encoding fails, with a TypeError, exactly when some filter key equals a reserved key holding a truthy value, or is an `Object.prototype` name not written before |
| Encoder.ClausesMembers | projects/query-builder/src/query-builder.ts:99-105 | the clauses gathered for a key are exactly the filters with that key |
| Encoder.FilterKeysMembers | projects/query-builder/src/query-builder.ts:99-103 | the filter keys are the keys of the filters, each listed once |
| Encoder.FilterParams | projects/query-builder/src/query-builder.ts:99-105 | the filter entries' keys are the filter keys, in order of first occurrence |
| Encoder.LookupFilterParams | projects/query-builder/src/query-builder.ts:99-105 | a key of some filter holds the array of its clauses' strings; any other key is absent |
| Encoder.FilterParamsUnique | projects/query-builder/src/query-builder.ts:99-105 | the filter entries have unique keys |
| Encoder.FilterParamsStep | projects/query-builder/src/query-builder.ts:100-104 | one more filter assigns its key the array of earlier strings with its own string pushed on the end |
| Encoder.AddFiltersGrouped | projects/query-builder/src/query-builder.ts:99-105 | when no filter key is already taken or inherited, the loop appends exactly the filter entries after the existing ones |
| Encoder.EncodeGrouped | projects/query-builder/src/query-builder.ts:79-109 | when no filter key is reserved or inherited, the encoding is the page/limit/sort entries followed by the filter entries |
| Encoder.EncodeFilterEntries | projects/query-builder/src/query-builder.ts:98-106 | when no filter key is reserved or inherited, each filter key holds a non-empty array of its clauses' `operator ++ text(value)` strings, in input order |
| Encoder.AddFiltersUnique | projects/query-builder/src/query-builder.ts:99-105 | the filter loop keeps the object's keys unique |
| Encoder.EncodeUnique | projects/query-builder/src/query-builder.ts:79-109 | whenever encoding succeeds, the object it returns has unique keys |
| Text.JoinSplit | projects/query-builder/src/query-builder.ts:146 | splitting on a separator and joining back gives the string |
| Text.SplitJoin | projects/query-builder/src/query-builder.ts:94 | joining parts that lack the separator and splitting back gives the parts |
| Text.TrimOfUnblank | projects/query-builder/src/query-builder.ts:194 | trim leaves alone a string whose ends are not white space |
| Text.ToLowerAsciiSpells | projects/query-builder/src/query-builder.ts:211 | a string lowers to a lower-case word exactly when it spells that word with each letter in either case |
| Numbers.ParseFloatOfRender | projects/query-builder/src/query-builder.ts:223-225 | `parseFloat` of a number's rendering gives the number back |
| Numbers.ToNumberOfRender | projects/query-builder/src/query-builder.ts:118 | unary `+` of a number's rendering gives the number back |
| Numbers.ParseFloatOfNonNumeric | projects/query-builder/src/query-builder.ts:223 | a string starting with a visible character other than a digit, a sign, a point or the `I` of `Infinity` is NaN for `parseFloat` |
| Numbers.ToNumberOfForeignChar | projects/query-builder/src/query-builder.ts:118 | the modelled unary `+` (plain decimals only) is NaN on a string holding a visible character that is not a digit, sign or point |
| Numbers.ToNumberOfBlank | projects/query-builder/src/query-builder.ts:118 | unary `+` of a blank string is 0 |
| Numbers.ScanDecimalChars | projects/query-builder/src/query-builder.ts:223 | a numeric prefix holds only digits, signs and points |
| Decoder.NumberOrDefaultFallsBack | projects/query-builder/src/query-builder.ts:118-126 | a missing, empty or zero page or limit gives the default, which may itself be zero or absent |
| Decoder.NumberOrDefaultKeeps | projects/query-builder/src/query-builder.ts:118-126 | a non-zero number, stored directly or as its rendering, is kept |
| Decoder.NumberOrDefaultOfBlank | projects/query-builder/src/query-builder.ts:118-126 | a blank string is 0 under unary `+`, so the default is used |
| Decoder.NumberOrDefaultOfSymbol | projects/query-builder/src/query-builder.ts:118-126 | a string holding a visible character that is not alphanumeric, a sign or a point is NaN under unary `+`, so the default is used |
| Decoder.NumberOrDefaultOfWord | projects/query-builder/src/query-builder.ts:118-126 | a string starting with a letter other than the `I` of `Infinity`, such as "abc", is NaN, so the default is used |
| Decoder.NumberOrDefaultOfTrailingText | projects/query-builder/src/query-builder.ts:118-126 | a number followed by a letter that cannot continue a literal, such as "12abc", is NaN under unary `+` (unlike `parseFloat`), so the default is used |
| Decoder.NumberOrDefaultOfArray | projects/query-builder/src/query-builder.ts:118-126 | an array of two or more strings joins with a comma and is NaN, so the default is used |
| Decoder.ParseSortHttpQueryParams | projects/query-builder/src/query-builder.ts:141-159 | the loop computes `ParseSortSpec`: absent, empty or zero gives no clauses; a non-empty string gives one clause per segment; a non-empty array or non-zero number is a TypeError |
| Decoder.ParseSorts | projects/query-builder/src/query-builder.ts:146-156 | one clause per comma-separated segment |
| Decoder.ParseSortsOrders | projects/query-builder/src/query-builder.ts:150-156 | a clause is DESC exactly when its segment starts with `-`, which is then stripped; otherwise it is ASC with the whole segment as key |
| Decoder.FindOperator | projects/query-builder/src/query-builder.ts:194 | the search over `POSSIBLE_OPERATORS` returns the detected operator |
| Decoder.ParseFilterStr | projects/query-builder/src/query-builder.ts:193-233 | the method computes `ParseFilterSpec` |
| Decoder.ParseFilterFails | projects/query-builder/src/query-builder.ts:194-198 | parsing fails exactly when no token starts the trimmed string and the untrimmed string starts with a non-alphanumeric character; the error is "Operator not recognized" |
| Decoder.ParseFilterOperator | projects/query-builder/src/query-builder.ts:194-232 | a parsed clause keeps the key. With no detected token it is Equal with the whole coerced string. Otherwise its token starts the trimmed string, and every other token that does is shorter |
| Decoder.ParseFilterDetected | projects/query-builder/src/query-builder.ts:194-204 | a detected operator's value is the untrimmed string minus the token's length, coerced |
| Decoder.ParseFilterPrefersLongerToken | projects/query-builder/src/query-builder.ts:194 | `>=` followed by a number parses as GreaterThanOrEqual with that number, never as GreaterThan with `=…` |
| Decoder.ParseFilterCutsUntrimmed | projects/query-builder/src/query-builder.ts:194-204 | with one leading blank, the token is detected, but the value keeps the token's last character: the token's length is cut from the untrimmed string |
| Decoder.TrimBlankToken | projects/query-builder/src/query-builder.ts:194 | trimming removes a leading blank before a token |
| Decoder.ParseFilterUndetected | projects/query-builder/src/query-builder.ts:196-208 | with no detected token, a string starting with a non-alphanumeric character fails; anything else is Equal with the whole string coerced |
| Decoder.ParseFilterUnknownSymbol | projects/query-builder/src/query-builder.ts:196-198 | a string that starts with a character that is not alphanumeric, not an operator symbol and not blank fails with "Operator not recognized" |
| Decoder.ParseFilterEmpty | projects/query-builder/src/query-builder.ts:196-208 | the empty string parses as Equal with the empty string |
| Decoder.CoerceBool | projects/query-builder/src/query-builder.ts:211-216 | a value becomes `true` (or `false`) exactly when it spells that word with each letter in either case, e.g. "TRUE" or "False" |
| Decoder.CoerceNull | projects/query-builder/src/query-builder.ts:217-219 | a value becomes null exactly when it spells "null" with each letter in either case |
| Decoder.CoerceUndefined | projects/query-builder/src/query-builder.ts:220-222 | a value becomes undefined exactly when it spells "undefined" with each letter in either case |
| Decoder.CoerceRender | projects/query-builder/src/query-builder.ts:223-225 | a number's rendering coerces to that number |
| Decoder.CoerceNumeric | projects/query-builder/src/query-builder.ts:223-225 | any value with a numeric prefix (after white space, a sign or a point too, as in " 5", "+5", ".5", "12abc") becomes the number `parseFloat` reads |
| Decoder.CoerceText | projects/query-builder/src/query-builder.ts:211-226 | a value that is not case-insensitively a keyword and has no numeric prefix, `Infinity` included, stays the same string |
| Decoder.CommaMatchesIffComma | projects/query-builder/src/query-builder.ts:180-181 | the pattern `,[=:!<>@]*` has a match exactly when the string contains a comma |
| Decoder.ParseEachPointwise | projects/query-builder/src/query-builder.ts:177-183 | parsing a list of strings succeeds exactly when each string parses, and then gives each string's clause in order |
| Decoder.ParseEachOk | projects/query-builder/src/query-builder.ts:177-183 | strings that each parse to a clause parse together to those clauses, in order |
| Decoder.EntryStringsOf | projects/query-builder/src/query-builder.ts:175-187 | a value yields no strings to parse (a TypeError) exactly when it is a number |
| Decoder.EntryStringsSplitOnComma | projects/query-builder/src/query-builder.ts:176-186 | an array is read element by element; a string is split on every comma exactly when splitting is allowed and it holds a comma, and is otherwise read whole |
| Decoder.ParseFilterStrs | projects/query-builder/src/query-builder.ts:177-183 | the loop computes `ParseAll` |
| Decoder.EntryStrings | projects/query-builder/src/query-builder.ts:175-187 | the method computes `EntryStringsOf` |
| Decoder.ParseFilterEntry | projects/query-builder/src/query-builder.ts:175-187 | one key's turn computes `ParseEntry`: the clauses parsed from the entry's strings, or a TypeError for a number |
| Decoder.ParseEntriesAppend | projects/query-builder/src/query-builder.ts:166-174 | parsing the entries of a concatenation gives the first part's clauses followed by the second's |
| Decoder.ParseFiltersSkipAt | projects/query-builder/src/query-builder.ts:165-166 | a reserved key contributes no clause |
| Decoder.ParseFiltersEntryAt | projects/query-builder/src/query-builder.ts:174-188 | a key that is not reserved contributes its entry's clauses after those before it, or ends the parse with the entry's error |
| Decoder.ParseFilterHttpQueryParams | projects/query-builder/src/query-builder.ts:161-191 | the loop computes `ParseFilters`: the clauses of every key that is not configured as reserved, in key order |
| Decoder.ReservedEntriesSkipped | projects/query-builder/src/query-builder.ts:165-166 | entries with reserved keys in front of others change nothing |
| Decoder.HttpQueryParamsToQuery | projects/query-builder/src/query-builder.ts:111-139 | the method computes `Decode` |
| Decoder.DecodeEmpty | projects/query-builder/src/query-builder.ts:111-139 | the empty object decodes to the default page and limit, with no sort and no filters |
| Decoder.ConfiguredPageKeyIgnored | projects/query-builder/src/query-builder.ts:118-166 | a page stored under a configured non-default key is neither read as the page nor parsed as a filter |
| RoundTrip.SortTokenRoundTrip | projects/query-builder/src/query-builder.ts:151-155 | a sort clause with no comma, and no leading `-` unless descending, reads back from its token, with a missing order read as ASC |
| RoundTrip.SortParamNotEmpty | projects/query-builder/src/query-builder.ts:92-94 | a safe sort list never encodes to the empty string |
| RoundTrip.SortRoundTrip | projects/query-builder/src/query-builder.ts:141-159 | a safe sort list decodes back from its encoding, every missing order filled in as ASC |
| RoundTrip.CoerceRoundTrip | projects/query-builder/src/query-builder.ts:211-226 | coercion undoes the encoder's text of a value that is not a keyword-like or numeric-prefixed string |
| RoundTrip.DetectsOwnToken | projects/query-builder/src/query-builder.ts:194 | the encoded filter string detects the filter's own operator, unless the operator is `>`/`<` and the string value starts with `=` |
| RoundTrip.FilterRoundTrip | projects/query-builder/src/query-builder.ts:193-233 | a safe filter parses back from its encoded string |
| RoundTrip.LastFilterKey | projects/query-builder/src/query-builder.ts:99-103 | when clauses sharing a key are adjacent, the last filter's key is the last key created |
| RoundTrip.GroupedByKeys | projects/query-builder/src/query-builder.ts:99-105 | when clauses sharing a key are adjacent, reading each key's clauses in key order gives the filters back in their order |
| RoundTrip.ClausesParseBack | projects/query-builder/src/query-builder.ts:174-177 | a key's array of encoded strings parses back to that key's clauses |
| RoundTrip.ParseEntriesRoundTrip | projects/query-builder/src/query-builder.ts:166-177 | the filter entries of unreserved keys parse back to each key's clauses, key by key |
| RoundTrip.EncodeSafe | projects/query-builder/src/query-builder.ts:79-109 | a safe query encodes to its page/limit/sort entries followed by its filter entries |
| RoundTrip.DecodeEncodedFilters | projects/query-builder/src/query-builder.ts:161-191 | the filters decode back from an encoded safe query, whether or not comma splitting is on |
| RoundTrip.DecodeEncodedPaging | projects/query-builder/src/query-builder.ts:83-126 | page and limit decode back from an encoded safe query |
| RoundTrip.DecodeEncodedSort | projects/query-builder/src/query-builder.ts:91-131 | sortBy decodes back from an encoded safe query |
| RoundTrip.DecodeEncode | projects/query-builder/src/query-builder.ts:79-139 | with the default keys and no defaults, encoding a safe query succeeds and decoding the result gives the query back |

A safe query (`RoundTrip.SafeQuery`) meets all of these conditions:
- page and limit are absent or non-zero;
- sortBy is absent or a non-empty list of clauses that:
  - each have an explicit order (without one, `RoundTrip.SortRoundTrip` shows the clause comes back as ASC);
  - have no comma in any key;
  - have no leading `-` in a key that is not descending;
  - are not exactly one non-descending clause on the empty key, which encodes to the empty string;
- filterBy is absent or a non-empty list in which:
  - no key is reserved, and none is a name every object inherits from `Object.prototype` (such as `constructor` or `toString`);
  - clauses sharing a key are adjacent;
  - no string value is case-insensitively `true`, `false`, `null` or `undefined`, has a numeric prefix, or starts (after white space and a sign) with `Infinity`;
  - no `>`/`<` clause has a string value starting with `=`.

## Left out

- Numbers are finite decimals in plain notation, not IEEE-754 doubles. Left out: rounding, precision limits, exponent notation in `parseFloat` and in rendering, `Infinity`, hexadecimal (`0x…`), binary (`0b…`) and octal (`0o…`) literals, and `-0`. NaN is the absence of a number.
- Decoder.CoerceValue: a filter value that `parseFloat` reads as an infinity ("Infinity", "-Infinityx") stays a string in the model, where the source makes it the number Infinity. The lemmas about coercion and the round trip exclude such strings (`Numbers.ReadsAsInfinity`).
- Decoder.NumberOrDefault: a page or limit of "Infinity", in exponent notation, or a hexadecimal (`0x…`), binary (`0b…`) or octal (`0o…`) literal, falls back to the default in the model, where the source reads a number (`+"0b101"` is 5).
- Numbers.ToNumberOfForeignChar: states NaN for the modelled plain-decimal `+` only. In JavaScript, `+"0b101"`, `+"0o17"`, `+"0x1F"` and `+"1e5"` are numbers although they hold `b`, `o`, `x` or `e`.
- The order of `Object.keys`: the parameter object is a list of entries in insertion order. JavaScript would put integer-like keys first.
- `toLowerCase` is modelled on ASCII letters only. The codec compares the lowered string only with `true`, `false`, `null` and `undefined`. Every non-ASCII character lowers to text holding a non-ASCII character or `k` (U+212A lowers to `k`, U+0130 to `i` plus U+0307), none of which occurs in those words, so every comparison agrees.
- Strings are sequences of Unicode characters, not UTF-16 code units. The codec cuts a string only after white space, operator symbols or `-`, and splits it only at commas, all in the Basic Multilingual Plane and so one code unit each, so positions agree.
- BuilderOptions.MergeOptions: a key passed explicitly as `undefined` overrides the default in the object spread; the model reads it as not supplied and keeps the default.
- Configured keys that name `Object.prototype` members (assigning `__proto__` does not create an entry) are not modelled; filter keys that name them are.
- The builder class: its only field is a read-only options record, so every operation takes the merged `Options` as a parameter instead.
- Parameter values other than strings, arrays of strings and numbers (booleans, nested objects, arrays of non-strings) are not modelled.
- The early return when there are no filter keys (query-builder.ts:168-170) is folded into the loop, which gives the same empty result.
- RoundTrip.DecodeEncode: proved for the default keys only. With other keys the decoder's literal `_page`/`_limit`/`_sort` do not match what the encoder writes. It also requires non-empty sortBy and filterBy when present, because the decoder leaves out empty lists.
