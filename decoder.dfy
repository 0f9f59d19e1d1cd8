/**
 * `httpQueryParamsToQuery` and its helpers: a flat HTTP parameter object is
 * read back into a `DclQuery`. Page, limit and sort are read from the
 * literal keys `_page`, `_limit` and `_sort`, whatever keys the builder was
 * configured with; every key other than the three configured keys is a
 * filter key.
 */
module Decoder {
  import opened Wrappers
  import opened Text
  import opened Numbers
  import opened FilterOperators
  import opened Records
  import opened BuilderOptions
  import opened OperatorDetection

  /** The keys the decoder reads page, limit and sort from. */
  const PageKey := "_page"
  const LimitKey := "_limit"
  const SortKey := "_sort"

  // ----- Pagination -----

  /** Unary `+` on a parameter value; None stands for NaN. */
  function NumericValue(v: Option<ParamValue>): Option<Number> {
    match v
    case None => None
    case Some(Scalar(s)) => ToNumber(s)
    case Some(List(items)) => ToNumber(Join(items, ','))
    case Some(NumberValue(n)) => Some(n)
  }

  /** `+value || fallback`: zero and NaN give way to the fallback. */
  function NumberOrDefault(v: Option<ParamValue>, fallback: Option<Number>): Option<Number> {
    var n := NumericValue(v);
    if IsTruthyNumber(n) then n else fallback
  }

  /** An absent, empty or zero value gives way to the fallback, which may itself be zero. */
  lemma NumberOrDefaultFallsBack(fallback: Option<Number>)
    ensures NumberOrDefault(None, fallback) == fallback
    ensures NumberOrDefault(Some(Scalar("")), fallback) == fallback
    ensures NumberOrDefault(Some(Scalar("0")), fallback) == fallback
  {
    ToNumberOfRender(Zero);
    assert Render(Zero) == "0";
  }

  /** A non-zero number, stored as a number or as its text, is kept. */
  lemma NumberOrDefaultKeeps(n: Number, fallback: Option<Number>)
    requires !IsZero(n)
    ensures NumberOrDefault(Some(NumberValue(n)), fallback) == Some(n)
    ensures NumberOrDefault(Some(Scalar(Render(n))), fallback) == Some(n)
  {
    ToNumberOfRender(n);
  }

  /** A blank value is 0 under unary `+`, so it gives way to the fallback. */
  lemma NumberOrDefaultOfBlank(s: string, fallback: Option<Number>)
    requires forall i :: 0 <= i < |s| ==> IsWhiteSpace(s[i])
    ensures NumberOrDefault(Some(Scalar(s)), fallback) == fallback
  {
    ToNumberOfBlank(s);
  }

  /**
   * A value holding a visible character that is neither alphanumeric nor a
   * sign nor a point is NaN under unary `+`, so it gives way to the fallback.
   */
  lemma NumberOrDefaultOfSymbol(s: string, p: nat, fallback: Option<Number>)
    requires p < |s| && !IsWhiteSpace(s[p]) && !IsAlphanumeric(s[p])
    requires s[p] != '+' && s[p] != '-' && s[p] != '.'
    ensures NumberOrDefault(Some(Scalar(s)), fallback) == fallback
  {
    ToNumberOfForeignChar(s, p);
  }

  /** A value starting with a letter other than the `I` of `Infinity` is NaN, so it gives way to the fallback. */
  lemma NumberOrDefaultOfWord(s: string, fallback: Option<Number>)
    requires s != [] && IsAlphanumeric(s[0]) && !IsDigit(s[0]) && s[0] != 'I'
    ensures NumberOrDefault(Some(Scalar(s)), fallback) == fallback
  {
    ToNumberOfForeignChar(s, 0);
  }

  /**
   * Unary `+`, unlike `parseFloat`, must read the whole string: a number
   * followed by a letter that cannot continue a literal (not an exponent
   * `e` nor a base prefix `x`, `b`, `o`), as in "12abc", is NaN, so it gives
   * way to the fallback.
   */
  lemma NumberOrDefaultOfTrailingText(n: Number, t: string, fallback: Option<Number>)
    requires t != [] && IsAlphanumeric(t[0]) && !IsDigit(t[0]) && t[0] !in "eExXbBoO"
    ensures NumberOrDefault(Some(Scalar(Render(n) + t)), fallback) == fallback
  {
    ToNumberOfForeignChar(Render(n) + t, |Render(n)|);
  }

  /** Unary `+` joins an array with commas: two or more elements are NaN, so they give way to the fallback. */
  lemma NumberOrDefaultOfArray(items: seq<string>, fallback: Option<Number>)
    requires |items| >= 2
    ensures NumberOrDefault(Some(List(items)), fallback) == fallback
  {
    assert [items[0]] + items[1..] == items;
    JoinCons(items[0], items[1..], ',');
    ToNumberOfForeignChar(Join(items, ','), |items[0]|);
  }

  // ----- Sort -----

  /** One comma-separated segment: a leading '-' means descending and is dropped. */
  function SortFromSegment(segment: string): Sort {
    if StartsWith(segment, "-") then Sort(segment[1..], Some(Desc)) else Sort(segment, Some(Asc))
  }

  /** One clause per comma-separated segment of `s`, in order. */
  function ParseSorts(s: string): (sorts: seq<Sort>)
    ensures |sorts| == |Split(s, ',')|
  {
    var segments := Split(s, ',');
    seq(|segments|, i requires 0 <= i < |segments| => SortFromSegment(segments[i]))
  }

  /**
   * `parseSortHttpQueryParams`: an absent or empty value gives no clause, a
   * string gives one clause per segment, an empty array or 0 gives no clause,
   * and any other array or number fails on `split`.
   */
  function ParseSortSpec(v: Option<ParamValue>): Result<seq<Sort>, Error> {
    match v
    case None => Ok([])
    case Some(Scalar(s)) => if s == "" then Ok([]) else Ok(ParseSorts(s))
    case Some(List(items)) => if items == [] then Ok([]) else Err(TypeError)
    case Some(NumberValue(n)) => if IsZero(n) then Ok([]) else Err(TypeError)
  }

  method ParseSortHttpQueryParams(v: Option<ParamValue>) returns (r: Result<seq<Sort>, Error>)
    ensures r == ParseSortSpec(v)
  {
    match v
    case None =>
      return Ok([]);
    case Some(List(items)) =>
      if items == [] {
        return Ok([]);
      }
      return Err(TypeError);
    case Some(NumberValue(n)) =>
      if IsZero(n) {
        return Ok([]);
      }
      return Err(TypeError);
    case Some(Scalar(s)) =>
      if s == "" {
        return Ok([]);
      }
      var segments := Split(s, ',');
      var parsed: seq<Sort> := [];
      for i := 0 to |segments|
        invariant parsed == ParseSorts(s)[..i]
      {
        if StartsWith(segments[i], "-") {
          parsed := parsed + [Sort(segments[i][1..], Some(Desc))];
        } else {
          parsed := parsed + [Sort(segments[i], Some(Asc))];
        }
      }
      assert ParseSorts(s)[..|segments|] == ParseSorts(s);
      return Ok(parsed);
  }

  /** Every clause read from a sort value carries an order, and only a '-'-segment is descending. */
  lemma ParseSortsOrders(s: string, i: nat)
    requires i < |Split(s, ',')|
    ensures ParseSorts(s)[i].order.Some?
    ensures ParseSorts(s)[i].order == Some(Desc) <==> StartsWith(Split(s, ',')[i], "-")
    ensures ParseSorts(s)[i].key ==
      if StartsWith(Split(s, ',')[i], "-") then Split(s, ',')[i][1..] else Split(s, ',')[i]
  {
  }

  // ----- Filter strings -----

  /** The value coercion of `parseFilterStr`, in its order: booleans, null, undefined, a numeric prefix, else the text. */
  function CoerceValue(text: string): Value {
    var lower := ToLowerAscii(text);
    if lower == "true" then Bool(true)
    else if lower == "false" then Bool(false)
    else if lower == "null" then Null
    else if lower == "undefined" then Undefined
    else
      match ParseFloat(text)
      case Some(n) => Num(n)
      case None => Str(text)
  }

  /** `s.substring(n)`. */
  function Drop(s: string, n: nat): (r: string)
    ensures |r| == if n <= |s| then |s| - n else 0
  {
    if n <= |s| then s[n..] else ""
  }

  /** `/^([^a-zA-Z0-9])+/` finds a match: the string starts with a character that is not an ASCII letter or digit. */
  predicate StartsWithSymbol(s: string) {
    s != [] && !IsAlphanumeric(s[0])
  }

  /**
   * `parseFilterStr`: the operator is detected on the trimmed string but the
   * value is cut from the untrimmed one; with no operator, a string that
   * starts with a symbol is refused and any other is an equality.
   */
  function ParseFilterSpec(key: string, s: string): Result<Filter, Error> {
    match DetectOperator(Trim(s))
    case Some(op) => Ok(Filter(key, op, CoerceValue(Drop(s, |Token(op)|))))
    case None => if StartsWithSymbol(s) then Err(OperatorNotRecognized) else Ok(Filter(key, Equal, CoerceValue(s)))
  }

  /** The search of `POSSIBLE_OPERATORS` for the first token that starts the trimmed string. */
  method FindOperator(trimmed: string) returns (operator: Option<FilterOperator>)
    ensures operator == DetectOperator(trimmed)
  {
    operator := None;
    var i := 0;
    while i < |PossibleOperators| && operator.None?
      invariant 0 <= i <= |PossibleOperators|
      invariant DetectOperator(trimmed) ==
        if operator.Some? then operator else FirstTokenPrefix(PossibleOperators[i..], trimmed)
    {
      assert PossibleOperators[i..][0] == PossibleOperators[i];
      assert PossibleOperators[i..][1..] == PossibleOperators[i + 1..];
      if StartsWith(trimmed, Token(PossibleOperators[i])) {
        operator := Some(PossibleOperators[i]);
      }
      i := i + 1;
    }
  }

  method ParseFilterStr(key: string, s: string) returns (r: Result<Filter, Error>)
    ensures r == ParseFilterSpec(key, s)
  {
    var operator := FindOperator(Trim(s));
    if operator.None? && StartsWithSymbol(s) {
      return Err(OperatorNotRecognized);
    }
    var op: FilterOperator;
    var value: string;
    if operator.Some? {
      op := operator.value;
      value := Drop(s, |Token(op)|);
    } else {
      op := Equal;
      value := s;
    }
    return Ok(Filter(key, op, CoerceValue(value)));
  }

  /** A filter string fails exactly when no token starts its trimmed form and it starts with a symbol. */
  lemma ParseFilterFails(key: string, s: string)
    ensures ParseFilterSpec(key, s).Err? <==> (forall op :: !StartsWith(Trim(s), Token(op))) && StartsWithSymbol(s)
    ensures ParseFilterSpec(key, s).Err? ==> ParseFilterSpec(key, s).error == OperatorNotRecognized
  {
    DetectOperatorIsLongest(Trim(s));
  }

  /**
   * A parsed filter carries the key it was read under and the longest token
   * that starts the trimmed string, or equality when no token does.
   */
  lemma ParseFilterOperator(key: string, s: string)
    requires ParseFilterSpec(key, s).Ok?
    ensures ParseFilterSpec(key, s).value.key == key
    ensures DetectOperator(Trim(s)).None? ==> ParseFilterSpec(key, s).value == Filter(key, Equal, CoerceValue(s))
    ensures DetectOperator(Trim(s)).Some? ==> StartsWith(Trim(s), Token(ParseFilterSpec(key, s).value.operator))
    ensures forall op :: StartsWith(Trim(s), Token(op)) ==>
      op == ParseFilterSpec(key, s).value.operator || |Token(op)| < |Token(ParseFilterSpec(key, s).value.operator)|
  {
    DetectOperatorIsLongest(Trim(s));
  }

  /** `toLowerCase` makes the keywords match in any mix of cases: exactly the spellings of "true" or "false" become that boolean. */
  lemma CoerceBool(text: string, b: bool)
    ensures CoerceValue(text) == Bool(b) <==>
      SpellsIgnoringCase(text, if b then "true" else "false", if b then "TRUE" else "FALSE")
  {
    ToLowerAsciiSpells(text, if b then "true" else "false", if b then "TRUE" else "FALSE");
  }

  /** Exactly the spellings of "null", in any mix of cases, become null. */
  lemma CoerceNull(text: string)
    ensures CoerceValue(text) == Null <==> SpellsIgnoringCase(text, "null", "NULL")
  {
    ToLowerAsciiSpells(text, "null", "NULL");
  }

  /** Exactly the spellings of "undefined", in any mix of cases, become undefined. */
  lemma CoerceUndefined(text: string)
    ensures CoerceValue(text) == Undefined <==> SpellsIgnoringCase(text, "undefined", "UNDEFINED")
  {
    ToLowerAsciiSpells(text, "undefined", "UNDEFINED");
  }

  /** The text of a number is coerced back to that number. */
  lemma CoerceRender(n: Number)
    ensures CoerceValue(Render(n)) == Num(n)
  {
    ParseFloatOfRender(n);
    CoerceNumeric(Render(n), n);
  }

  /**
   * Text with a numeric prefix is coerced to the number `parseFloat` reads:
   * a keyword starts with a letter other than `I`, so it has no numeric prefix.
   */
  lemma CoerceNumeric(text: string, n: Number)
    requires ParseFloat(text) == Some(n)
    ensures CoerceValue(text) == Num(n)
  {
    var lower := ToLowerAscii(text);
    if lower == "true" || lower == "false" || lower == "null" || lower == "undefined" {
      assert lower[0] == ToLowerAsciiChar(text[0]);
      assert lower[0] in "tfnu";
      ParseFloatOfNonNumeric(text);
      assert false;
    }
  }

  /** With an operator detected, the value is the untrimmed string less the token's length. */
  lemma ParseFilterDetected(key: string, s: string, op: FilterOperator, value: string)
    requires DetectOperator(Trim(s)) == Some(op) && Drop(s, |Token(op)|) == value
    ensures ParseFilterSpec(key, s) == Ok(Filter(key, op, CoerceValue(value)))
  {
  }

  /** ">=5" reads as GreaterThanOrEqual with 5, never as GreaterThan with "=5". */
  lemma ParseFilterPrefersLongerToken(key: string, n: Number)
    ensures ParseFilterSpec(key, ">=" + Render(n)) == Ok(Filter(key, GreaterThanOrEqual, Num(n)))
  {
    var s := ">=" + Render(n);
    assert s == Token(GreaterThanOrEqual) + Render(n);
    TrimOfUnblank(s);
    DetectTokenPrefix(GreaterThanOrEqual, Render(n));
    assert Drop(s, 2) == Render(n);
    ParseFilterDetected(key, s, GreaterThanOrEqual, Render(n));
    CoerceRender(n);
  }

  /** Text that is not a keyword in any mix of cases and has no numeric prefix, not even `Infinity`, stays text. */
  lemma CoerceText(text: string)
    requires ToLowerAscii(text) != "true" && ToLowerAscii(text) != "false"
    requires ToLowerAscii(text) != "null" && ToLowerAscii(text) != "undefined"
    requires ParseFloat(text) == None && !ReadsAsInfinity(text)
    ensures CoerceValue(text) == Str(text)
  {
  }

  /**
   * A blank before the token is skipped when detecting it but still counted
   * when the value is cut, so the value keeps the token's last character.
   */
  lemma ParseFilterCutsUntrimmed(key: string, blank: char, op: FilterOperator, rest: string)
    requires IsWhiteSpace(blank)
    requires rest == [] || !IsWhiteSpace(rest[|rest| - 1])
    requires !((op == GreaterThan || op == LessThan) && |rest| > 0 && rest[0] == '=')
    ensures ParseFilterSpec(key, [blank] + Token(op) + rest) ==
      Ok(Filter(key, op, CoerceValue([Token(op)[|Token(op)| - 1]] + rest)))
  {
    var token := Token(op);
    var s := [blank] + token + rest;
    TrimBlankToken(blank, op, rest);
    DetectTokenPrefix(op, rest);
    DropBlankToken(blank, token, rest);
    ParseFilterDetected(key, s, op, [token[|token| - 1]] + rest);
  }

  lemma DropBlankToken(blank: char, token: string, rest: string)
    requires token != []
    ensures Drop([blank] + token + rest, |token|) == [token[|token| - 1]] + rest
  {
    var s := [blank] + token + rest;
    assert s[|token|..] == [token[|token| - 1]] + rest;
  }

  lemma TrimBlankToken(blank: char, op: FilterOperator, rest: string)
    requires IsWhiteSpace(blank)
    requires rest == [] || !IsWhiteSpace(rest[|rest| - 1])
    ensures Trim([blank] + Token(op) + rest) == Token(op) + rest
  {
    var t := Token(op) + rest;
    assert [blank] + Token(op) + rest == [blank] + t;
    OperatorSymbolsAreNotAlphanumeric(t[0]);
    if rest == [] {
      OperatorSymbolsAreNotAlphanumeric(t[|t| - 1]);
    } else {
      assert t[|t| - 1] == rest[|rest| - 1];
    }
    TrimLeadingBlank(blank, t);
  }

  /** With no operator detected, a string is refused when it starts with a symbol and is an equality otherwise. */
  lemma ParseFilterUndetected(key: string, s: string)
    requires DetectOperator(Trim(s)) == None
    ensures ParseFilterSpec(key, s) ==
      if StartsWithSymbol(s) then Err(OperatorNotRecognized) else Ok(Filter(key, Equal, CoerceValue(s)))
  {
  }

  /** A string that starts with a symbol that no token starts with is refused, whatever follows. */
  lemma ParseFilterUnknownSymbol(key: string, s: string)
    requires s != [] && !IsAlphanumeric(s[0]) && !IsOperatorSymbol(s[0]) && !IsWhiteSpace(s[0])
    ensures ParseFilterSpec(key, s) == Err(OperatorNotRecognized)
  {
    assert TrimStart(s) == s;
    var t := Trim(s);
    assert t != [] && t[0] == s[0];
    DetectNothing(t);
    ParseFilterUndetected(key, s);
  }

  /** The empty string is an equality with the empty string. */
  lemma ParseFilterEmpty(key: string)
    ensures ParseFilterSpec(key, "") == Ok(Filter(key, Equal, Str("")))
  {
    assert Trim("") == "";
    DetectNothing("");
    ParseFilterUndetected(key, "");
    assert ParseFloat("") == None;
    CoerceText("");
  }

  // ----- Filter keys -----

  /** The characters of the class `[=:!<>@]` that may follow a comma in a match. */
  predicate IsCommaSuffixChar(c: char) {
    c == '=' || c == ':' || c == '!' || c == '<' || c == '>' || c == '@'
  }

  function CommaSuffixLength(s: string): (k: nat)
    ensures k <= |s|
  {
    if s == [] || !IsCommaSuffixChar(s[0]) then 0 else 1 + CommaSuffixLength(s[1..])
  }

  /**
   * The global match of a comma followed by any run of `[=:!<>@]`, as the
   * list of its matches; no match is the empty list.
   */
  function CommaMatches(s: string): (ms: seq<string>)
    ensures forall i :: 0 <= i < |ms| ==> |ms[i]| >= 1 && ms[i][0] == ','
    decreases |s|
  {
    if s == [] then []
    else if s[0] == ',' then
      var k := CommaSuffixLength(s[1..]);
      [s[..1 + k]] + CommaMatches(s[1 + k..])
    else CommaMatches(s[1..])
  }

  /** The pattern matches exactly when the string holds a comma. */
  lemma {:induction false} CommaMatchesIffComma(s: string)
    ensures |CommaMatches(s)| > 0 <==> ',' in s
    decreases |s|
  {
    if s != [] && s[0] != ',' {
      CommaMatchesIffComma(s[1..]);
      assert ',' in s <==> ',' in s[1..];
    }
  }

  /** `Ok(pre + fs)` when `r` is `Ok(fs)`; an error stays. */
  function Prepend(pre: seq<Filter>, r: Result<seq<Filter>, Error>): Result<seq<Filter>, Error> {
    match r
    case Ok(fs) => Ok(pre + fs)
    case Err(e) => Err(e)
  }

  lemma PrependNothing(r: Result<seq<Filter>, Error>)
    ensures Prepend([], r) == r
  {
    if r.Ok? {
      assert [] + r.value == r.value;
    }
  }

  lemma PrependTwice(a: seq<Filter>, b: seq<Filter>, r: Result<seq<Filter>, Error>)
    ensures Prepend(a, Prepend(b, r)) == Prepend(a + b, r)
  {
    if r.Ok? {
      assert a + (b + r.value) == a + b + r.value;
    }
  }

  /** Each string parsed in order by `parse`; the first failure ends the parse. */
  function ParseEach(strs: seq<string>, parse: string -> Result<Filter, Error>): (r: Result<seq<Filter>, Error>)
    ensures r.Ok? ==> |r.value| == |strs|
  {
    if strs == [] then Ok([])
    else
      match parse(strs[0])
      case Err(e) => Err(e)
      case Ok(f) => Prepend([f], ParseEach(strs[1..], parse))
  }

  /** The parse of one filter string under `key`, as a function value. */
  function FilterParser(key: string): string -> Result<Filter, Error> {
    s => ParseFilterSpec(key, s)
  }

  /** The strings of one filter key, each parsed as a filter string under that key. */
  function ParseAll(key: string, strs: seq<string>): Result<seq<Filter>, Error> {
    ParseEach(strs, FilterParser(key))
  }

  /** Strings that each parse to their clause parse, all together, to the clauses in order. */
  lemma {:induction false} ParseEachOk(strs: seq<string>, parse: string -> Result<Filter, Error>, cs: seq<Filter>)
    requires |strs| == |cs| && forall i :: 0 <= i < |strs| ==> parse(strs[i]) == Ok(cs[i])
    ensures ParseEach(strs, parse) == Ok(cs)
  {
    if strs != [] {
      ParseEachOk(strs[1..], parse, cs[1..]);
      assert [cs[0]] + cs[1..] == cs;
    }
  }

  /**
   * A parse of strings succeeds exactly when every string parses, and then
   * gives one clause per string, in order.
   */
  lemma {:induction false} ParseEachPointwise(strs: seq<string>, parse: string -> Result<Filter, Error>)
    ensures ParseEach(strs, parse).Ok? <==> forall i :: 0 <= i < |strs| ==> parse(strs[i]).Ok?
    ensures ParseEach(strs, parse).Ok? ==>
      forall i :: 0 <= i < |strs| ==> ParseEach(strs, parse).value[i] == parse(strs[i]).value
  {
    if strs != [] {
      ParseEachPointwise(strs[1..], parse);
      assert forall i :: 1 <= i < |strs| ==> strs[1..][i - 1] == strs[i];
    }
  }

  /**
   * The strings of one filter key's value: the array itself, or for a string
   * its comma-separated parts when splitting is allowed and a comma is there,
   * else the string alone. A number has none: `match` on it throws.
   */
  function EntryStringsOf(v: ParamValue, allowComaSeparatedArrays: bool): (strs: Option<seq<string>>)
    ensures strs.None? <==> v.NumberValue?
  {
    match v
    case List(items) => Some(items)
    case Scalar(s) =>
      if allowComaSeparatedArrays && |CommaMatches(s)| > 0 then Some(Split(s, ','))
      else Some([s])
    case NumberValue(_) => None
  }

  /** The clauses of one filter key: one per string of its value, the first failure thrown. */
  function ParseEntry(key: string, v: ParamValue, allowComaSeparatedArrays: bool): Result<seq<Filter>, Error> {
    match EntryStringsOf(v, allowComaSeparatedArrays)
    case None => Err(TypeError)
    case Some(strs) => ParseAll(key, strs)
  }

  /**
   * An array is read element by element; a string is split on every comma
   * exactly when splitting is allowed and it holds a comma, else read whole.
   */
  lemma EntryStringsSplitOnComma(v: ParamValue, allow: bool)
    ensures v.List? ==> EntryStringsOf(v, allow) == Some(v.items)
    ensures v.Scalar? && allow && ',' in v.text ==> EntryStringsOf(v, allow) == Some(Split(v.text, ','))
    ensures v.Scalar? && !(allow && ',' in v.text) ==> EntryStringsOf(v, allow) == Some([v.text])
  {
    if v.Scalar? {
      CommaMatchesIffComma(v.text);
    }
  }

  /** The entries parsed in order by `entry`, reserved keys skipped; the first failure ends the parse. */
  function ParseEntries(params: ParamMap, opts: Options, entry: (string, ParamValue) -> Result<seq<Filter>, Error>)
    : Result<seq<Filter>, Error>
  {
    if params == [] then Ok([])
    else if IsReservedKey(opts, params[0].key) then ParseEntries(params[1..], opts, entry)
    else
      match entry(params[0].key, params[0].value)
      case Err(e) => Err(e)
      case Ok(fs) => Prepend(fs, ParseEntries(params[1..], opts, entry))
  }

  /** The parse of one entry, as a function value. */
  function EntryParser(allowComaSeparatedArrays: bool): (string, ParamValue) -> Result<seq<Filter>, Error> {
    (k, v) => ParseEntry(k, v, allowComaSeparatedArrays)
  }

  /** `parseFilterHttpQueryParams`: every entry whose key is not reserved, in key order. */
  function ParseFilters(params: ParamMap, opts: Options, allowComaSeparatedArrays: bool): Result<seq<Filter>, Error> {
    ParseEntries(params, opts, EntryParser(allowComaSeparatedArrays))
  }

  /** An object of one entry that is not reserved parses as that entry does. */
  lemma ParseEntriesSingle(
    p: Param, opts: Options, entry: (string, ParamValue) -> Result<seq<Filter>, Error>, fs: seq<Filter>)
    requires !IsReservedKey(opts, p.key) && entry(p.key, p.value) == Ok(fs)
    ensures ParseEntries([p], opts, entry) == Ok(fs)
  {
    assert [p][1..] == [];
    assert fs + [] == fs;
  }

  /** Two objects laid end to end parse as the filters of the first followed by those of the second. */
  lemma {:induction false} ParseEntriesAppend(
    a: ParamMap, b: ParamMap, opts: Options, entry: (string, ParamValue) -> Result<seq<Filter>, Error>)
    requires ParseEntries(a, opts, entry).Ok?
    ensures ParseEntries(a + b, opts, entry) == Prepend(ParseEntries(a, opts, entry).value, ParseEntries(b, opts, entry))
  {
    if a == [] {
      assert a + b == b;
      PrependNothing(ParseEntries(b, opts, entry));
    } else {
      assert (a + b)[0] == a[0] && (a + b)[1..] == a[1..] + b;
      ParseEntriesAppend(a[1..], b, opts, entry);
      if !IsReservedKey(opts, a[0].key) {
        PrependTwice(entry(a[0].key, a[0].value).value, ParseEntries(a[1..], opts, entry).value, ParseEntries(b, opts, entry));
      }
    }
  }

  /** The inner loop of `parseFilterHttpQueryParams`: each string parsed in order, the first failure thrown. */
  method ParseFilterStrs(key: string, strs: seq<string>) returns (r: Result<seq<Filter>, Error>)
    ensures r == ParseAll(key, strs)
  {
    var filters: seq<Filter> := [];
    var j := 0;
    PrependNothing(ParseAll(key, strs));
    while j < |strs|
      invariant 0 <= j <= |strs|
      invariant Prepend(filters, ParseAll(key, strs[j..])) == ParseAll(key, strs)
    {
      assert strs[j..][0] == strs[j] && strs[j..][1..] == strs[j + 1..];
      var f := ParseFilterStr(key, strs[j]);
      if f.Err? {
        return Err(f.error);
      }
      PrependTwice(filters, [f.value], ParseAll(key, strs[j + 1..]));
      filters := filters + [f.value];
      j := j + 1;
    }
    assert filters + [] == filters;
    return Ok(filters);
  }

  method EntryStrings(v: ParamValue, allowComaSeparatedArrays: bool) returns (strs: Option<seq<string>>)
    ensures strs == EntryStringsOf(v, allowComaSeparatedArrays)
  {
    match v {
      case NumberValue(_) =>
        strs := None;
      case List(items) =>
        strs := Some(items);
      case Scalar(s) =>
        var matches := CommaMatches(s);
        if allowComaSeparatedArrays && |matches| > 0 {
          strs := Some(Split(s, ','));
        } else {
          strs := Some([s]);
        }
    }
  }

  /** A reserved key at position `i` adds nothing to the parse from `i` on. */
  lemma ParseFiltersSkipAt(params: ParamMap, i: nat, opts: Options, allow: bool)
    requires i < |params| && IsReservedKey(opts, params[i].key)
    ensures ParseFilters(params[i..], opts, allow) == ParseFilters(params[i + 1..], opts, allow)
  {
    assert params[i..][0] == params[i] && params[i..][1..] == params[i + 1..];
  }

  /**
   * A key at position `i` that is not reserved contributes its entry's
   * clauses ahead of the rest's, or ends the parse with its entry's error.
   */
  lemma ParseFiltersEntryAt(
    params: ParamMap, i: nat, opts: Options, allow: bool, done: seq<Filter>, r: Result<seq<Filter>, Error>)
    requires i < |params| && !IsReservedKey(opts, params[i].key)
    requires ParseEntry(params[i].key, params[i].value, allow) == r
    ensures r.Err? ==> Prepend(done, ParseFilters(params[i..], opts, allow)) == Err(r.error)
    ensures r.Ok? ==>
      Prepend(done, ParseFilters(params[i..], opts, allow)) == Prepend(done + r.value, ParseFilters(params[i + 1..], opts, allow))
  {
    assert params[i..][0] == params[i] && params[i..][1..] == params[i + 1..];
    if r.Ok? {
      PrependTwice(done, r.value, ParseFilters(params[i + 1..], opts, allow));
    }
  }

  /** One turn of the `forEach` over the filter keys: the clauses of one entry, or its TypeError. */
  method ParseFilterEntry(key: string, v: ParamValue, allowComaSeparatedArrays: bool)
    returns (r: Result<seq<Filter>, Error>)
    ensures r == ParseEntry(key, v, allowComaSeparatedArrays)
  {
    var strs := EntryStrings(v, allowComaSeparatedArrays);
    if strs.None? {
      return Err(TypeError);
    }
    r := ParseFilterStrs(key, strs.value);
  }

  method ParseFilterHttpQueryParams(params: ParamMap, opts: Options, allowComaSeparatedArrays: bool)
    returns (r: Result<seq<Filter>, Error>)
    ensures r == ParseFilters(params, opts, allowComaSeparatedArrays)
  {
    var filters: seq<Filter> := [];
    var i := 0;
    PrependNothing(ParseFilters(params, opts, allowComaSeparatedArrays));
    while i < |params|
      invariant 0 <= i <= |params|
      invariant Prepend(filters, ParseFilters(params[i..], opts, allowComaSeparatedArrays)) ==
        ParseFilters(params, opts, allowComaSeparatedArrays)
    {
      var key := params[i].key;
      if IsReservedKey(opts, key) {
        ParseFiltersSkipAt(params, i, opts, allowComaSeparatedArrays);
      } else {
        var parsed := ParseFilterEntry(key, params[i].value, allowComaSeparatedArrays);
        ParseFiltersEntryAt(params, i, opts, allowComaSeparatedArrays, filters, parsed);
        if parsed.Err? {
          return Err(parsed.error);
        }
        filters := filters + parsed.value;
      }
      i := i + 1;
    }
    assert filters + [] == filters;
    return Ok(filters);
  }

  /** The configured reserved keys never produce a filter, whatever their values. */
  lemma {:induction false} ReservedEntriesSkipped(head: ParamMap, rest: ParamMap, opts: Options, allow: bool)
    requires forall i :: 0 <= i < |head| ==> IsReservedKey(opts, head[i].key)
    ensures ParseFilters(head + rest, opts, allow) == ParseFilters(rest, opts, allow)
  {
    if head != [] {
      assert (head + rest)[0] == head[0] && (head + rest)[1..] == head[1..] + rest;
      ReservedEntriesSkipped(head[1..], rest, opts, allow);
    } else {
      assert head + rest == rest;
    }
  }

  // ----- The whole object -----

  /** `httpQueryParamsToQuery`: what it returns or throws. */
  function Decode(opts: Options, params: ParamMap, decodeOpts: DecodeOptions): Result<Query, Error> {
    var page := NumberOrDefault(Lookup(params, PageKey), decodeOpts.defaultPage);
    var limit := NumberOrDefault(Lookup(params, LimitKey), decodeOpts.defaultLimit);
    match ParseSortSpec(Lookup(params, SortKey))
    case Err(e) => Err(e)
    case Ok(sorts) =>
      match ParseFilters(params, opts, decodeOpts.allowComaSeparatedArrays)
      case Err(e) => Err(e)
      case Ok(filters) =>
        Ok(Query(page, limit, if |sorts| > 0 then Some(sorts) else None, if |filters| > 0 then Some(filters) else None))
  }

  method HttpQueryParamsToQuery(opts: Options, params: ParamMap, decodeOpts: DecodeOptions)
    returns (r: Result<Query, Error>)
    ensures r == Decode(opts, params, decodeOpts)
  {
    var query := EmptyQuery;
    var page := NumberOrDefault(Lookup(params, PageKey), decodeOpts.defaultPage);
    if page.Some? {
      query := query.(page := page);
    }
    var limit := NumberOrDefault(Lookup(params, LimitKey), decodeOpts.defaultLimit);
    if limit.Some? {
      query := query.(limit := limit);
    }
    var sortBy := ParseSortHttpQueryParams(Lookup(params, SortKey));
    if sortBy.Err? {
      return Err(sortBy.error);
    }
    if |sortBy.value| > 0 {
      query := query.(sortBy := Some(sortBy.value));
    }
    var filterBy := ParseFilterHttpQueryParams(params, opts, decodeOpts.allowComaSeparatedArrays);
    if filterBy.Err? {
      return Err(filterBy.error);
    }
    if |filterBy.value| > 0 {
      query := query.(filterBy := Some(filterBy.value));
    }
    return Ok(query);
  }

  /** An empty object decodes to the defaults alone. */
  lemma DecodeEmpty(opts: Options, decodeOpts: DecodeOptions)
    ensures Decode(opts, [], decodeOpts) == Ok(Query(decodeOpts.defaultPage, decodeOpts.defaultLimit, None, None))
  {
  }

  /**
   * The decoder reads page, limit and sort only from `_page`, `_limit` and
   * `_sort`: under a configured page key other than those, a page is neither
   * read as the page nor, being reserved, as a filter.
   */
  lemma ConfiguredPageKeyIgnored(opts: Options, n: Number, decodeOpts: DecodeOptions)
    requires opts.pageParamKey != PageKey && opts.pageParamKey != LimitKey && opts.pageParamKey != SortKey
    ensures Decode(opts, [Param(opts.pageParamKey, NumberValue(n))], decodeOpts) ==
      Ok(Query(decodeOpts.defaultPage, decodeOpts.defaultLimit, None, None))
  {
    var params := [Param(opts.pageParamKey, NumberValue(n))];
    assert params[0].key == opts.pageParamKey && params[1..] == [];
    assert Lookup(params, PageKey) == None;
    assert Lookup(params, LimitKey) == None;
    assert Lookup(params, SortKey) == None;
    ReservedEntriesSkipped(params, [], opts, decodeOpts.allowComaSeparatedArrays);
    assert params + [] == params;
  }
}
