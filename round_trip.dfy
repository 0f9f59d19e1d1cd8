/**
 * Decoding what the encoder wrote gives the query back, under the default
 * keys and without default page or limit, for every query the wire format
 * can carry without loss: the conditions below name each way information is
 * lost (a falsy page, an empty sort or filter list, a missing sort order,
 * which comes back as ascending, an ascending key that reads as descending,
 * a comma inside a sort key, a string value that reads as a keyword or a
 * number, a ">" or "<" followed by '=', clauses of one key separated by
 * another key).
 */
module RoundTrip {
  import opened Wrappers
  import opened Text
  import opened Numbers
  import opened FilterOperators
  import opened Records
  import opened BuilderOptions
  import opened OperatorDetection
  import opened Encoder
  import opened Decoder

  // ----- Sort -----

  /**
   * A clause the sort string carries: no comma, and no '-' in front of a key
   * that is not descending. A missing order is carried as ascending.
   */
  predicate SafeSort(s: Sort) {
    && ',' !in s.key
    && (s.order != Some(Desc) ==> !StartsWith(s.key, "-"))
  }

  /** A non-empty list of safe clauses that is not the single non-descending clause on the empty key, which encodes to "". */
  predicate SafeSorts(sorts: seq<Sort>) {
    && |sorts| >= 1
    && (forall i :: 0 <= i < |sorts| ==> SafeSort(sorts[i]))
    && !(|sorts| == 1 && sorts[0].key == "" && sorts[0].order != Some(Desc))
  }

  /** Every clause names its order. */
  predicate ExplicitOrders(sorts: seq<Sort>) {
    forall i :: 0 <= i < |sorts| ==> sorts[i].order.Some?
  }

  /** The clauses with every missing order read as ascending. */
  function ResolvedSorts(sorts: seq<Sort>): (r: seq<Sort>)
    ensures |r| == |sorts|
    ensures ExplicitOrders(sorts) ==> r == sorts
  {
    seq(|sorts|, i requires 0 <= i < |sorts| => Resolved(sorts[i]))
  }

  /** A safe clause reads back from its token, a missing order as ascending. */
  lemma SortTokenRoundTrip(s: Sort)
    requires SafeSort(s)
    ensures SortFromSegment(SortToken(s)) == Resolved(s)
  {
    if s.order == Some(Desc) {
      var t := SortToken(s);
      assert t == "-" + s.key && t[..1] == "-";
      assert t[1..] == s.key;
    } else {
      assert s.order.None? || s.order.value == Asc;
      assert Resolved(s) == Sort(s.key, Some(Asc));
      assert SortToken(s) == s.key;
    }
  }

  /** The encoded sort string is never empty for a safe list. */
  lemma SortParamNotEmpty(sorts: seq<Sort>)
    requires SafeSorts(sorts)
    ensures SortParam(sorts) != ""
  {
    SortParamSplits(sorts);
    assert IndexOf("", ',') == 0;
    assert Split("", ',') == [""];
    if |sorts| == 1 {
      assert sorts == [sorts[0]];
      assert SortParam(sorts) == SortToken(sorts[0]);
      if sorts[0].order != Some(Desc) {
        assert SortToken(sorts[0]) == sorts[0].key;
        assert sorts[0].key != "";
      } else {
        assert SortToken(sorts[0]) == "-" + sorts[0].key;
      }
    }
  }

  /** The sort value the encoder writes decodes to the same clauses, each missing order as ascending. */
  lemma SortRoundTrip(sorts: seq<Sort>)
    requires SafeSorts(sorts)
    ensures ParseSortSpec(Some(Scalar(SortParam(sorts)))) == Ok(ResolvedSorts(sorts))
  {
    var p := SortParam(sorts);
    SortParamNotEmpty(sorts);
    SortParamSplits(sorts);
    var parsed := ParseSorts(p);
    assert |parsed| == |sorts|;
    forall i | 0 <= i < |sorts| ensures parsed[i] == ResolvedSorts(sorts)[i] {
      assert Split(p, ',')[i] == SortToken(sorts[i]);
      SortTokenRoundTrip(sorts[i]);
    }
    assert parsed == ResolvedSorts(sorts);
    assert ParseSortSpec(Some(Scalar(p))) == Ok(parsed);
  }

  // ----- Filter strings -----

  /** A value whose text coerces back to the value itself. */
  predicate SafeValue(v: Value) {
    v.Str? ==>
      && ToLowerAscii(v.s) != "true" && ToLowerAscii(v.s) != "false"
      && ToLowerAscii(v.s) != "null" && ToLowerAscii(v.s) != "undefined"
      && ParseFloat(v.s) == None && !ReadsAsInfinity(v.s)
  }

  /** A clause whose wire string decodes back to it. */
  predicate SafeFilter(f: Filter) {
    && SafeValue(f.value)
    && ((f.operator == GreaterThan || f.operator == LessThan) && f.value.Str? ==> !StartsWith(f.value.s, "="))
  }

  /** Coercion undoes the encoder's string conversion of a safe value. */
  lemma CoerceRoundTrip(v: Value)
    requires SafeValue(v)
    ensures CoerceValue(ValueText(v)) == v
  {
    match v
    case Str(s) => CoerceText(s);
    case Num(n) => CoerceRender(n);
    case Bool(b) => CoerceBool(ValueText(v), b);
    case Null => CoerceNull(ValueText(v));
    case Undefined => CoerceUndefined(ValueText(v));
  }

  /** No value other than a string has text that starts with '='. */
  lemma ValueTextStart(v: Value)
    requires !v.Str?
    ensures ValueText(v) == [] || ValueText(v)[0] != '='
  {
    if v.Num? {
      assert IsDigit(Render(v.n)[0]) || Render(v.n)[0] == '-';
    }
  }

  /**
   * Trimming a string that starts with a token keeps the whole token and a
   * prefix of what follows it.
   */
  lemma TrimKeepsToken(op: FilterOperator, text: string)
    ensures |Token(op)| <= |Trim(Token(op) + text)|
    ensures Trim(Token(op) + text) == Token(op) + text[..|Trim(Token(op) + text)| - |Token(op)|]
  {
    var tok := Token(op);
    var s := tok + text;
    OperatorSymbolsAreNotAlphanumeric(s[0]);
    assert TrimStart(s) == s;
    var t := TrimEnd(s);
    assert s[|tok| - 1] == tok[|tok| - 1];
    OperatorSymbolsAreNotAlphanumeric(tok[|tok| - 1]);
    assert |tok| <= |t|;
    assert t == tok + text[..|t| - |tok|];
  }

  /**
   * A token followed by text is detected as that token's operator, however
   * the text ends, unless the token is ">" or "<" and the text starts with '='.
   */
  lemma DetectTokenBeforeText(op: FilterOperator, text: string)
    requires (op == GreaterThan || op == LessThan) && text != [] ==> text[0] != '='
    ensures DetectOperator(Trim(Token(op) + text)) == Some(op)
  {
    var tok := Token(op);
    TrimKeepsToken(op, text);
    var rest := text[..|Trim(tok + text)| - |tok|];
    assert rest != [] ==> rest[0] == text[0];
    DetectTokenPrefix(op, rest);
  }

  /** The operator of a safe clause is the one detected in its wire string. */
  lemma DetectsOwnToken(f: Filter)
    requires (f.operator == GreaterThan || f.operator == LessThan) && f.value.Str? ==> !StartsWith(f.value.s, "=")
    ensures DetectOperator(Trim(FilterString(f))) == Some(f.operator)
  {
    var text := ValueText(f.value);
    if f.value.Str? {
      assert text == f.value.s;
      assert text != [] && text[0] == '=' ==> StartsWith(text, "=") by {
        if text != [] && text[0] == '=' {
          assert text[..1] == "=";
        }
      }
    } else {
      ValueTextStart(f.value);
    }
    DetectTokenBeforeText(f.operator, text);
  }

  /** A safe clause decodes back from its wire string. */
  lemma FilterRoundTrip(f: Filter)
    requires SafeFilter(f)
    ensures ParseFilterSpec(f.key, FilterString(f)) == Ok(f)
  {
    var s := FilterString(f);
    DetectsOwnToken(f);
    assert Drop(s, |Token(f.operator)|) == ValueText(f.value);
    ParseFilterDetected(f.key, s, f.operator, ValueText(f.value));
    CoerceRoundTrip(f.value);
  }

  // ----- Grouping -----

  /** Clauses that share a key are adjacent: no clause of another key sits between two of them. */
  predicate Grouped(fs: seq<Filter>) {
    forall i, j, l :: 0 <= i < j < l < |fs| && fs[i].key == fs[l].key ==> fs[j].key == fs[i].key
  }

  /** The clauses of each key of `ks` in turn, the order the decoder reads them back in. */
  function ClausesByKeys(fs: seq<Filter>, ks: seq<string>): seq<Filter> {
    if ks == [] then [] else ClausesByKeys(fs, ks[..|ks| - 1]) + Clauses(fs, ks[|ks| - 1])
  }

  /** A filter whose key is not in `ks` adds nothing to their clauses. */
  lemma {:induction false} ClausesByKeysFrame(fs: seq<Filter>, f: Filter, ks: seq<string>)
    requires f.key !in ks
    ensures ClausesByKeys(fs + [f], ks) == ClausesByKeys(fs, ks)
  {
    if ks != [] {
      ClausesByKeysFrame(fs, f, ks[..|ks| - 1]);
      ClausesAppend(fs, f, ks[|ks| - 1]);
      assert Clauses(fs, ks[|ks| - 1]) + [] == Clauses(fs, ks[|ks| - 1]);
    }
  }

  /** In a grouped list, the last filter key is the key of the last clause. */
  lemma {:induction false} LastFilterKey(fs: seq<Filter>)
    requires fs != [] && Grouped(fs)
    ensures FilterKeys(fs) != [] && FilterKeys(fs)[|FilterKeys(fs)| - 1] == fs[|fs| - 1].key
  {
    var front := fs[..|fs| - 1];
    var k := fs[|fs| - 1].key;
    if k in FilterKeys(front) {
      FilterKeysMembers(front);
      var i :| 0 <= i < |front| && front[i].key == k;
      assert fs[i].key == k;
      if i < |front| - 1 {
        assert fs[|fs| - 2].key == k;
      }
      assert front[|front| - 1].key == k;
      LastFilterKey(front);
    }
  }

  /** Reading the clauses key by key, in the order the keys first occur, gives a grouped list back. */
  lemma {:induction false} GroupedByKeys(fs: seq<Filter>)
    requires Grouped(fs)
    ensures ClausesByKeys(fs, FilterKeys(fs)) == fs
  {
    if fs != [] {
      var front := fs[..|fs| - 1];
      var f := fs[|fs| - 1];
      var ks := FilterKeys(front);
      assert fs == front + [f];
      assert Grouped(front);
      GroupedByKeys(front);
      FilterKeysAppend(front, f);
      if f.key in ks {
        LastFilterKey(fs);
        FilterKeysMembers(front);
        ClausesByKeysLastKey(front, f, ks);
      } else {
        ClausesOfAbsentKey(front, f.key);
        ClausesByKeysNewKey(front, f, ks);
      }
    }
  }

  /** A clause of the last key joins that key's clauses, at the end. */
  lemma ClausesByKeysLastKey(front: seq<Filter>, f: Filter, ks: seq<string>)
    requires ks != [] && ks[|ks| - 1] == f.key
    requires forall i :: 0 <= i < |ks| - 1 ==> ks[i] != f.key
    ensures ClausesByKeys(front + [f], ks) == ClausesByKeys(front, ks) + [f]
  {
    var ks0 := ks[..|ks| - 1];
    ClausesByKeysFrame(front, f, ks0);
    ClausesAppend(front, f, f.key);
    var before, group := ClausesByKeys(front, ks0), Clauses(front, f.key);
    assert ClausesByKeys(front, ks) == before + group;
    assert ClausesByKeys(front + [f], ks) == before + (group + [f]);
    assert before + (group + [f]) == (before + group) + [f];
  }

  /** A clause of a key with no clause yet, read after all others, comes last. */
  lemma ClausesByKeysNewKey(front: seq<Filter>, f: Filter, ks: seq<string>)
    requires f.key !in ks && Clauses(front, f.key) == []
    ensures ClausesByKeys(front + [f], ks + [f.key]) == ClausesByKeys(front, ks) + [f]
  {
    ClausesByKeysFrame(front, f, ks);
    ClausesAppend(front, f, f.key);
    assert (ks + [f.key])[..|ks|] == ks;
    assert [] + [f] == [f];
  }

  // ----- Decoding the filter entries -----

  /** The entries the encoder writes for the keys `ks`, in that order. */
  function EntriesFor(fs: seq<Filter>, ks: seq<string>): (m: ParamMap)
    ensures |m| == |ks| && forall i :: 0 <= i < |ks| ==> m[i] == Param(ks[i], List(FilterStrings(fs, ks[i])))
  {
    seq(|ks|, i requires 0 <= i < |ks| => Param(ks[i], List(FilterStrings(fs, ks[i]))))
  }

  /** A safe clause's filter string parses back under the clause's own key. */
  lemma FilterParsesBack(f: Filter)
    requires SafeFilter(f)
    ensures FilterParser(f.key)(FilterString(f)) == Ok(f)
  {
    FilterRoundTrip(f);
  }

  /** The array the encoder writes for one key of safe clauses parses back to those clauses. */
  lemma ClausesParseBack(fs: seq<Filter>, k: string)
    requires forall i :: 0 <= i < |fs| ==> SafeFilter(fs[i])
    ensures ParseAll(k, FilterStrings(fs, k)) == Ok(Clauses(fs, k))
  {
    var cs := Clauses(fs, k);
    var strs := FilterStringsOf(cs);
    ClausesMembers(fs, k);
    forall i | 0 <= i < |strs| ensures FilterParser(k)(strs[i]) == Ok(cs[i]) {
      assert cs[i] in cs;
      FilterParsesBack(cs[i]);
    }
    ParseEachOk(strs, FilterParser(k), cs);
  }

  /** The entry the encoder writes for one key of safe clauses decodes to those clauses. */
  lemma EntryParsesBack(fs: seq<Filter>, k: string, allow: bool)
    requires forall i :: 0 <= i < |fs| ==> SafeFilter(fs[i])
    ensures EntryParser(allow)(k, List(FilterStrings(fs, k))) == Ok(Clauses(fs, k))
  {
    var strs := FilterStrings(fs, k);
    ClausesParseBack(fs, k);
    assert ParseEntry(k, List(strs), allow) == ParseAll(k, strs);
  }

  /**
   * Entries, one per key, each of which `entry` reads back as that key's
   * clauses, read back together as the clauses key by key.
   */
  lemma {:induction false} ParseEntriesByKeys(
    fs: seq<Filter>, ks: seq<string>, opts: Options, entry: (string, ParamValue) -> Result<seq<Filter>, Error>)
    requires forall i :: 0 <= i < |ks| ==> !IsReservedKey(opts, ks[i])
    requires forall i :: 0 <= i < |ks| ==> entry(ks[i], List(FilterStrings(fs, ks[i]))) == Ok(Clauses(fs, ks[i]))
    ensures ParseEntries(EntriesFor(fs, ks), opts, entry) == Ok(ClausesByKeys(fs, ks))
  {
    if ks != [] {
      var ks0 := ks[..|ks| - 1];
      var k := ks[|ks| - 1];
      var p := Param(k, List(FilterStrings(fs, k)));
      assert EntriesFor(fs, ks) == EntriesFor(fs, ks0) + [p];
      ParseEntriesByKeys(fs, ks0, opts, entry);
      ParseEntriesSingle(p, opts, entry, Clauses(fs, k));
      ParseEntriesAppend(EntriesFor(fs, ks0), [p], opts, entry);
    }
  }

  /** The entries of safe clauses under keys that are not reserved decode to the clauses key by key. */
  lemma ParseEntriesRoundTrip(fs: seq<Filter>, ks: seq<string>, opts: Options, allow: bool)
    requires forall i :: 0 <= i < |fs| ==> SafeFilter(fs[i])
    requires forall i :: 0 <= i < |ks| ==> !IsReservedKey(opts, ks[i])
    ensures ParseFilters(EntriesFor(fs, ks), opts, allow) == Ok(ClausesByKeys(fs, ks))
  {
    forall i | 0 <= i < |ks|
      ensures EntryParser(allow)(ks[i], List(FilterStrings(fs, ks[i]))) == Ok(Clauses(fs, ks[i]))
    {
      EntryParsesBack(fs, ks[i], allow);
    }
    ParseEntriesByKeys(fs, ks, opts, EntryParser(allow));
  }

  // ----- The whole query -----

  /** A filter list the encoder writes without error and the decoder reads back. */
  predicate SafeFilters(fs: seq<Filter>) {
    && |fs| >= 1
    && (forall i :: 0 <= i < |fs| ==> !IsReservedKey(DefaultOptions, fs[i].key) && !IsInheritedKey(fs[i].key) && SafeFilter(fs[i]))
    && Grouped(fs)
  }

  /** A query that survives encoding and decoding under the default keys. */
  predicate SafeQuery(q: Query) {
    && (q.page.None? || !IsZero(q.page.value))
    && (q.limit.None? || !IsZero(q.limit.value))
    && (q.sortBy.None? || (SafeSorts(q.sortBy.value) && ExplicitOrders(q.sortBy.value)))
    && (q.filterBy.None? || SafeFilters(q.filterBy.value))
  }

  /** The filter entries of a query: empty when it has none. */
  function FilterEntries(q: Query): ParamMap {
    if q.filterBy.Some? then FilterParams(q.filterBy.value) else []
  }

  /** A safe query encodes to its head followed by its filter entries. */
  lemma EncodeSafe(q: Query)
    requires SafeQuery(q)
    ensures Encode(DefaultOptions, q) == Ok(HeadParams(DefaultOptions, q) + FilterEntries(q))
  {
    EncodeGrouped(DefaultOptions, q);
  }

  /** The filter entries hold none of the reserved keys. */
  lemma FilterEntriesUnreserved(q: Query, k: string)
    requires SafeQuery(q) && IsReservedKey(DefaultOptions, k)
    ensures Lookup(FilterEntries(q), k) == None
  {
    if q.filterBy.Some? {
      var fs := q.filterBy.value;
      FilterKeysMembers(fs);
      LookupFilterParams(fs, k);
    }
  }

  /** Under a reserved key, the encoded object reads what the head holds. */
  lemma EncodedReservedLookup(q: Query, k: string)
    requires SafeQuery(q) && IsReservedKey(DefaultOptions, k)
    ensures Lookup(HeadParams(DefaultOptions, q) + FilterEntries(q), k) == Lookup(HeadParams(DefaultOptions, q), k)
  {
    LookupConcat(HeadParams(DefaultOptions, q), FilterEntries(q), k);
    FilterEntriesUnreserved(q, k);
  }

  /** The filters decode back from the encoded object. */
  lemma DecodeEncodedFilters(q: Query, allow: bool)
    requires SafeQuery(q)
    ensures ParseFilters(HeadParams(DefaultOptions, q) + FilterEntries(q), DefaultOptions, allow) ==
      Ok(if q.filterBy.Some? then q.filterBy.value else [])
  {
    var head := HeadParams(DefaultOptions, q);
    HeadParamsReserved(DefaultOptions, q);
    ReservedEntriesSkipped(head, FilterEntries(q), DefaultOptions, allow);
    if q.filterBy.Some? {
      var fs := q.filterBy.value;
      var ks := FilterKeys(fs);
      FilterKeysMembers(fs);
      forall i | 0 <= i < |ks| ensures !IsReservedKey(DefaultOptions, ks[i]) {
        assert ks[i] in ks;
      }
      assert FilterParams(fs) == EntriesFor(fs, ks);
      ParseEntriesRoundTrip(fs, ks, DefaultOptions, allow);
      GroupedByKeys(fs);
    }
  }

  /** Page and limit decode back from the encoded object. */
  lemma DecodeEncodedPaging(q: Query)
    requires SafeQuery(q)
    ensures NumberOrDefault(Lookup(HeadParams(DefaultOptions, q) + FilterEntries(q), PageKey), None) == q.page
    ensures NumberOrDefault(Lookup(HeadParams(DefaultOptions, q) + FilterEntries(q), LimitKey), None) == q.limit
  {
    HeadParamsLookup(DefaultOptions, q);
    EncodedReservedLookup(q, PageKey);
    EncodedReservedLookup(q, LimitKey);
    NumberOrDefaultFallsBack(None);
    if q.page.Some? {
      NumberOrDefaultKeeps(q.page.value, None);
    }
    if q.limit.Some? {
      NumberOrDefaultKeeps(q.limit.value, None);
    }
  }

  /** The sort clauses decode back from the encoded object. */
  lemma DecodeEncodedSort(q: Query)
    requires SafeQuery(q)
    ensures ParseSortSpec(Lookup(HeadParams(DefaultOptions, q) + FilterEntries(q), SortKey)) ==
      Ok(if q.sortBy.Some? then q.sortBy.value else [])
  {
    HeadParamsLookup(DefaultOptions, q);
    EncodedReservedLookup(q, SortKey);
    if q.sortBy.Some? {
      SortRoundTrip(q.sortBy.value);
    }
  }

  /**
   * Under the default keys and without default page or limit, decoding the
   * encoding of a safe query gives the query back, whether or not comma
   * splitting is allowed.
   */
  lemma DecodeEncode(q: Query, allow: bool)
    requires SafeQuery(q)
    ensures Encode(DefaultOptions, q).Ok?
    ensures Decode(DefaultOptions, Encode(DefaultOptions, q).value, DecodeOptions(None, None, allow)) == Ok(q)
  {
    EncodeSafe(q);
    DecodeEncodedPaging(q);
    DecodeEncodedSort(q);
    DecodeEncodedFilters(q, allow);
  }
}
