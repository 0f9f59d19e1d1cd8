/**
 * `queryToHttpQueryParams`: a `DclQuery` becomes a flat HTTP parameter
 * object. Page and limit are stored as numbers under their configured keys,
 * the sort clauses as one comma-joined string, and the filters as one array
 * of `operator + value` strings per filter key.
 */
module Encoder {
  import opened Wrappers
  import opened Text
  import opened Numbers
  import opened FilterOperators
  import opened Records
  import opened BuilderOptions

  /** One sort clause on the wire: its key, with a leading '-' when descending. */
  function SortToken(s: Sort): string {
    if s.order == Some(Desc) then "-" + s.key else s.key
  }

  function SortTokens(sorts: seq<Sort>): (ts: seq<string>)
    ensures |ts| == |sorts|
    ensures forall i :: 0 <= i < |sorts| ==> ts[i] == SortToken(sorts[i])
  {
    seq(|sorts|, i requires 0 <= i < |sorts| => SortToken(sorts[i]))
  }

  /** The value written under the sort key. */
  function SortParam(sorts: seq<Sort>): string {
    Join(SortTokens(sorts), ',')
  }

  /** The comma-joined sort value splits back into one token per clause when no key holds a comma. */
  lemma SortParamSplits(sorts: seq<Sort>)
    requires |sorts| >= 1
    requires forall i :: 0 <= i < |sorts| ==> ',' !in sorts[i].key
    ensures Split(SortParam(sorts), ',') == SortTokens(sorts)
  {
    SortTokensCommaFree(sorts);
    SplitJoin(SortTokens(sorts), ',');
  }

  /**
   * A sort token holds a comma only where its key does, and, for a key that
   * does not itself start with '-', it starts with '-' exactly when the clause
   * is descending.
   */
  lemma SortTokensCommaFree(sorts: seq<Sort>)
    ensures forall i :: 0 <= i < |sorts| && ',' !in sorts[i].key ==> ',' !in SortTokens(sorts)[i]
    ensures forall i :: 0 <= i < |sorts| && sorts[i].order == Some(Desc) ==> SortTokens(sorts)[i][0] == '-'
    ensures forall i :: 0 <= i < |sorts| && !StartsWith(sorts[i].key, "-") ==>
      (StartsWith(SortTokens(sorts)[i], "-") <==> sorts[i].order == Some(Desc))
  {
    var ts := SortTokens(sorts);
    forall k | 0 <= k < |ts| && ',' !in sorts[k].key ensures ',' !in ts[k] {
      if sorts[k].order == Some(Desc) {
        assert ts[k] == "-" + sorts[k].key;
      }
    }
    forall k | 0 <= k < |ts| && !StartsWith(sorts[k].key, "-")
      ensures StartsWith(ts[k], "-") <==> sorts[k].order == Some(Desc)
    {
      if sorts[k].order == Some(Desc) {
        assert ts[k] == "-" + sorts[k].key && ts[k][..1] == "-";
      } else {
        assert ts[k] == sorts[k].key;
      }
    }
  }

  /** A clause as the encoder reads it: a missing order counts as ascending. */
  function Resolved(s: Sort): (r: Sort)
    ensures r.key == s.key && r.order.Some?
    ensures s.order.Some? ==> r == s
  {
    Sort(s.key, Some(s.order.GetOr(Asc)))
  }

  /** A clause without an order is written exactly as the ascending clause on its key. */
  lemma SortTokenOfMissingOrder(s: Sort)
    ensures SortToken(s) == SortToken(Resolved(s))
    ensures s.order.None? ==> SortToken(s) == SortToken(Sort(s.key, Some(Asc)))
  {
  }

  /** One filter on the wire: `${filter.operator}${filter.value}`. */
  function FilterString(f: Filter): string {
    Token(f.operator) + ValueText(f.value)
  }

  /**
   * The object after the pagination and sort steps: each present part is
   * written with `params[key] = ...`, so a later part overwrites an earlier
   * one that shares its key.
   */
  function HeadParams(opts: Options, q: Query): ParamMap {
    var withPage := if IsTruthyNumber(q.page) then Assign([], opts.pageParamKey, NumberValue(q.page.value)) else [];
    var withLimit :=
      if IsTruthyNumber(q.limit) then Assign(withPage, opts.limitParamKey, NumberValue(q.limit.value)) else withPage;
    if q.sortBy.Some? && |q.sortBy.value| > 0 then
      Assign(withLimit, opts.sortParamKey, Scalar(SortParam(q.sortBy.value)))
    else withLimit
  }

  /**
   * One turn of the filter loop: an absent or falsy entry is first replaced
   * by an empty array, then the filter string is pushed. Pushing onto a
   * number or a string that is already there, or onto the inherited member
   * an absent `Object.prototype` name reads as, is a TypeError.
   */
  function AddFilter(params: ParamMap, f: Filter): Result<ParamMap, Error> {
    var current := Lookup(params, f.key);
    if current.None? && IsInheritedKey(f.key) then Err(TypeError)
    else if !IsTruthy(current) then Ok(Assign(params, f.key, List([FilterString(f)])))
    else if current.value.List? then Ok(Assign(params, f.key, List(current.value.items + [FilterString(f)])))
    else Err(TypeError)
  }

  /** The filter loop over `fs`, stopping at the first error. */
  function AddFilters(params: ParamMap, fs: seq<Filter>): Result<ParamMap, Error>
    decreases |fs|
  {
    if fs == [] then Ok(params)
    else
      match AddFilter(params, fs[0])
      case Err(e) => Err(e)
      case Ok(next) => AddFilters(next, fs[1..])
  }

  /** What `queryToHttpQueryParams` returns or throws. */
  function Encode(opts: Options, q: Query): Result<ParamMap, Error> {
    var head := HeadParams(opts, q);
    if q.filterBy.Some? && |q.filterBy.value| > 0 then AddFilters(head, q.filterBy.value) else Ok(head)
  }

  /** `queryToHttpQueryParams`, step by step. */
  method QueryToHttpQueryParams(opts: Options, q: Query) returns (r: Result<ParamMap, Error>)
    ensures r == Encode(opts, q)
  {
    var params: ParamMap := [];
    if IsTruthyNumber(q.page) {
      params := Assign(params, opts.pageParamKey, NumberValue(q.page.value));
    }
    if IsTruthyNumber(q.limit) {
      params := Assign(params, opts.limitParamKey, NumberValue(q.limit.value));
    }
    if q.sortBy.Some? && |q.sortBy.value| > 0 {
      params := Assign(params, opts.sortParamKey, Scalar(SortParam(q.sortBy.value)));
    }
    if q.filterBy.Some? && |q.filterBy.value| > 0 {
      r := PushFilters(params, q.filterBy.value);
    } else {
      r := Ok(params);
    }
  }

  /** The `forEach` over the filters, which stops at the first TypeError. */
  method PushFilters(params: ParamMap, filters: seq<Filter>) returns (r: Result<ParamMap, Error>)
    ensures r == AddFilters(params, filters)
  {
    var m := params;
    var i := 0;
    while i < |filters|
      invariant 0 <= i <= |filters|
      invariant AddFilters(m, filters[i..]) == AddFilters(params, filters)
    {
      assert filters[i..][0] == filters[i] && filters[i..][1..] == filters[i + 1..];
      var step := PushFilter(m, filters[i]);
      if step.Err? {
        return step;
      }
      AddFiltersStep(m, filters[i..], step.value);
      m := step.value;
      i := i + 1;
    }
    assert filters[i..] == [];
    return Ok(m);
  }

  /** One turn of the `forEach` over the filters: make room for an array, then push the filter string. */
  method PushFilter(params: ParamMap, f: Filter) returns (r: Result<ParamMap, Error>)
    ensures r == AddFilter(params, f)
  {
    var m := params;
    // `params[filter.key]` of an absent inherited name is a truthy non-array
    var inherited := Lookup(m, f.key).None? && IsInheritedKey(f.key);
    if !inherited && !IsTruthy(Lookup(m, f.key)) {
      m := Assign(m, f.key, List([]));
      AssignLookup(params, f.key, List([]));
    }
    var current := Lookup(m, f.key);
    if inherited || !current.value.List? {
      return Err(TypeError);
    }
    m := Assign(m, f.key, List(current.value.items + [FilterString(f)]));
    if !IsTruthy(Lookup(params, f.key)) {
      assert current.value.items + [FilterString(f)] == [FilterString(f)];
      AssignTwice(params, f.key, List([]), List([FilterString(f)]));
    }
    return Ok(m);
  }

  // ----- What the encoded object holds -----

  /** An empty query encodes to an empty object. */
  lemma EncodeEmpty(opts: Options)
    ensures Encode(opts, EmptyQuery) == Ok([])
  {
  }

  /** Every entry of the head sits under a reserved key and none of them is an array. */
  lemma HeadParamsReserved(opts: Options, q: Query)
    ensures forall i :: 0 <= i < |HeadParams(opts, q)| ==>
      IsReservedKey(opts, HeadParams(opts, q)[i].key) && !HeadParams(opts, q)[i].value.List?
  {
    var withPage := if IsTruthyNumber(q.page) then Assign([], opts.pageParamKey, NumberValue(q.page.value)) else [];
    var withLimit :=
      if IsTruthyNumber(q.limit) then Assign(withPage, opts.limitParamKey, NumberValue(q.limit.value)) else withPage;
    AssignEntries([], opts.pageParamKey, NumberValue(q.page.GetOr(Zero)), opts);
    if IsTruthyNumber(q.limit) {
      AssignEntries(withPage, opts.limitParamKey, NumberValue(q.limit.value), opts);
    }
    if q.sortBy.Some? && |q.sortBy.value| > 0 {
      AssignEntries(withLimit, opts.sortParamKey, Scalar(SortParam(q.sortBy.value)), opts);
    }
  }

  /** Writing a non-array value under a reserved key keeps every entry reserved and non-array. */
  lemma {:induction false} AssignEntries(m: ParamMap, k: string, v: ParamValue, opts: Options)
    requires IsReservedKey(opts, k) && !v.List?
    requires forall i :: 0 <= i < |m| ==> IsReservedKey(opts, m[i].key) && !m[i].value.List?
    ensures forall i :: 0 <= i < |Assign(m, k, v)| ==>
      IsReservedKey(opts, Assign(m, k, v)[i].key) && !Assign(m, k, v)[i].value.List?
  {
    if m != [] && m[0].key != k {
      AssignEntries(m[1..], k, v, opts);
    }
  }

  /**
   * With three different keys, the head holds exactly the truthy page, the
   * truthy limit and the non-empty sort, each under its own key.
   */
  lemma HeadParamsLookup(opts: Options, q: Query)
    requires DistinctKeys(opts)
    ensures Lookup(HeadParams(opts, q), opts.pageParamKey) ==
      (if IsTruthyNumber(q.page) then Some(NumberValue(q.page.value)) else None)
    ensures Lookup(HeadParams(opts, q), opts.limitParamKey) ==
      (if IsTruthyNumber(q.limit) then Some(NumberValue(q.limit.value)) else None)
    ensures Lookup(HeadParams(opts, q), opts.sortParamKey) ==
      (if q.sortBy.Some? && |q.sortBy.value| > 0 then Some(Scalar(SortParam(q.sortBy.value))) else None)
  {
    var withPage := if IsTruthyNumber(q.page) then Assign([], opts.pageParamKey, NumberValue(q.page.value)) else [];
    var withLimit :=
      if IsTruthyNumber(q.limit) then Assign(withPage, opts.limitParamKey, NumberValue(q.limit.value)) else withPage;
    if IsTruthyNumber(q.page) {
      AssignLookup([], opts.pageParamKey, NumberValue(q.page.value));
    }
    if IsTruthyNumber(q.limit) {
      AssignLookup(withPage, opts.limitParamKey, NumberValue(q.limit.value));
    }
    if q.sortBy.Some? && |q.sortBy.value| > 0 {
      AssignLookup(withLimit, opts.sortParamKey, Scalar(SortParam(q.sortBy.value)));
    }
  }

  // ----- Why the filter loop fails -----

  /** The loop throws on `k` when `k` reads as a truthy non-array: an own entry, or an inherited member. */
  predicate Blocks(params: ParamMap, k: string) {
    || (Lookup(params, k).None? && IsInheritedKey(k))
    || (IsTruthy(Lookup(params, k)) && !Lookup(params, k).value.List?)
  }

  /** The filter loop fails exactly when some filter's key reads as a truthy non-array when the loop starts. */
  lemma {:induction false} AddFiltersFails(params: ParamMap, fs: seq<Filter>)
    ensures AddFilters(params, fs).Err? <==> exists i :: 0 <= i < |fs| && Blocks(params, fs[i].key)
    ensures AddFilters(params, fs).Err? ==> AddFilters(params, fs).error == TypeError
    decreases |fs|
  {
    if fs != [] {
      var k := fs[0].key;
      if !Blocks(params, k) {
        var current := Lookup(params, k);
        var v := if !IsTruthy(current) then List([FilterString(fs[0])])
                 else List(current.value.items + [FilterString(fs[0])]);
        var next := Assign(params, k, v);
        assert AddFilter(params, fs[0]) == Ok(next);
        AssignLookup(params, k, v);
        assert forall k' :: Blocks(next, k') <==> k' != k && Blocks(params, k');
        AddFiltersFails(next, fs[1..]);
        if exists i :: 0 <= i < |fs| && Blocks(params, fs[i].key) {
          var i :| 0 <= i < |fs| && Blocks(params, fs[i].key);
          assert i > 0 && fs[1..][i - 1] == fs[i];
        }
        if exists j :: 0 <= j < |fs[1..]| && Blocks(next, fs[1..][j].key) {
          var j :| 0 <= j < |fs[1..]| && Blocks(next, fs[1..][j].key);
          assert fs[j + 1] == fs[1..][j];
        }
      }
    }
  }

  /**
   * Encoding throws a TypeError exactly when a filter's key is the key of a
   * page, limit or sort that was written before it, or an `Object.prototype`
   * name that was not.
   */
  lemma EncodeFails(opts: Options, q: Query)
    requires q.filterBy.Some?
    ensures Encode(opts, q).Err? <==>
      exists i :: 0 <= i < |q.filterBy.value| &&
        (IsTruthy(Lookup(HeadParams(opts, q), q.filterBy.value[i].key)) ||
         (Lookup(HeadParams(opts, q), q.filterBy.value[i].key).None? && IsInheritedKey(q.filterBy.value[i].key)))
    ensures Encode(opts, q).Err? ==> Encode(opts, q).error == TypeError
  {
    var head := HeadParams(opts, q);
    HeadParamsReserved(opts, q);
    forall k ensures Blocks(head, k) <==> IsTruthy(Lookup(head, k)) || (Lookup(head, k).None? && IsInheritedKey(k)) {
      if Lookup(head, k).Some? {
        LookupFound(head, k);
      }
    }
    AddFiltersFails(head, q.filterBy.value);
  }

  // ----- The grouped form of the filters -----

  /** The clauses of `fs` whose key is `k`, in order. */
  function Clauses(fs: seq<Filter>, k: string): seq<Filter> {
    if fs == [] then []
    else Clauses(fs[..|fs| - 1], k) + (if fs[|fs| - 1].key == k then [fs[|fs| - 1]] else [])
  }

  /** The clauses of `k` are exactly the filters with key `k`. */
  lemma {:induction false} ClausesMembers(fs: seq<Filter>, k: string)
    ensures forall c :: c in Clauses(fs, k) ==> c in fs && c.key == k
    ensures forall i :: 0 <= i < |fs| && fs[i].key == k ==> fs[i] in Clauses(fs, k)
  {
    if fs != [] {
      var front := fs[..|fs| - 1];
      ClausesMembers(front, k);
      assert forall i :: 0 <= i < |fs| - 1 ==> front[i] == fs[i];
    }
  }

  /** The keys of `fs`, each once, in the order of their first clause. */
  function FilterKeys(fs: seq<Filter>): seq<string> {
    if fs == [] then []
    else
      var ks := FilterKeys(fs[..|fs| - 1]);
      var k := fs[|fs| - 1].key;
      if k in ks then ks else ks + [k]
  }

  /** The filter keys are the keys of the filters, each listed once. */
  lemma {:induction false} FilterKeysMembers(fs: seq<Filter>)
    ensures forall k :: k in FilterKeys(fs) <==> exists i :: 0 <= i < |fs| && fs[i].key == k
    ensures forall i, j :: 0 <= i < j < |FilterKeys(fs)| ==> FilterKeys(fs)[i] != FilterKeys(fs)[j]
  {
    if fs != [] {
      var front := fs[..|fs| - 1];
      FilterKeysMembers(front);
      assert forall i :: 0 <= i < |fs| - 1 ==> front[i] == fs[i];
    }
  }

  /** The wire strings of a list of clauses, in order. */
  function FilterStringsOf(cs: seq<Filter>): (ss: seq<string>)
    ensures |ss| == |cs| && forall i :: 0 <= i < |cs| ==> ss[i] == FilterString(cs[i])
  {
    seq(|cs|, i requires 0 <= i < |cs| => FilterString(cs[i]))
  }

  /** The strings pushed under `k`: one per clause with that key, in order. */
  function FilterStrings(fs: seq<Filter>, k: string): seq<string> {
    FilterStringsOf(Clauses(fs, k))
  }

  /** The entries the filter loop adds: one array per filter key, in the order the keys first occur. */
  function FilterParams(fs: seq<Filter>): (m: ParamMap)
    ensures Keys(m) == FilterKeys(fs)
  {
    var ks := FilterKeys(fs);
    seq(|ks|, i requires 0 <= i < |ks| => Param(ks[i], List(FilterStrings(fs, ks[i]))))
  }

  /** A key that no filter carries has no clause. */
  lemma ClausesOfAbsentKey(fs: seq<Filter>, k: string)
    requires k !in FilterKeys(fs)
    ensures Clauses(fs, k) == []
  {
    var cs := Clauses(fs, k);
    if cs != [] {
      assert cs[0] in cs;
      ClausesMembers(fs, k);
      FilterKeysMembers(fs);
    }
  }

  /** Every filter key reads its own array of strings; any other key is absent. */
  lemma LookupFilterParams(fs: seq<Filter>, k: string)
    ensures Lookup(FilterParams(fs), k) ==
      if k in FilterKeys(fs) then Some(List(FilterStrings(fs, k))) else None
  {
    var m := FilterParams(fs);
    var ks := FilterKeys(fs);
    FilterKeysMembers(fs);
    LookupAbsent(m, k);
    if k in ks {
      var i :| 0 <= i < |ks| && ks[i] == k;
      LookupAt(m, i);
    }
  }

  /** The clauses of a longer list are those of the shorter one and possibly the new filter. */
  lemma ClausesAppend(fs: seq<Filter>, f: Filter, k: string)
    ensures Clauses(fs + [f], k) == Clauses(fs, k) + (if f.key == k then [f] else [])
  {
    assert (fs + [f])[..|fs|] == fs;
  }

  /** The strings of a longer list are those of the shorter one and possibly the new filter's. */
  lemma FilterStringsAppend(fs: seq<Filter>, f: Filter, k: string)
    ensures FilterStrings(fs + [f], k) == FilterStrings(fs, k) + (if f.key == k then [FilterString(f)] else [])
  {
    ClausesAppend(fs, f, k);
  }

  lemma FilterKeysAppend(fs: seq<Filter>, f: Filter)
    ensures FilterKeys(fs + [f]) == if f.key in FilterKeys(fs) then FilterKeys(fs) else FilterKeys(fs) + [f.key]
  {
    assert (fs + [f])[..|fs|] == fs;
  }

  /** The entries the filter loop adds have distinct keys. */
  lemma FilterParamsUnique(fs: seq<Filter>)
    ensures UniqueKeys(FilterParams(fs))
  {
    FilterKeysMembers(fs);
  }

  /** Appending a filter writes one more string onto the array of its key. */
  lemma FilterParamsStep(fs: seq<Filter>, f: Filter)
    ensures FilterParams(fs + [f]) ==
      Assign(FilterParams(fs), f.key, List(FilterStrings(fs, f.key) + [FilterString(f)]))
  {
    if f.key in FilterKeys(fs) {
      FilterParamsStepKnownKey(fs, f);
    } else {
      FilterParamsStepNewKey(fs, f);
    }
  }

  lemma FilterParamsStepKnownKey(fs: seq<Filter>, f: Filter)
    requires f.key in FilterKeys(fs)
    ensures FilterParams(fs + [f]) ==
      Assign(FilterParams(fs), f.key, List(FilterStrings(fs, f.key) + [FilterString(f)]))
  {
    var all := fs + [f];
    var m := FilterParams(fs);
    var m' := FilterParams(all);
    var ks := FilterKeys(fs);
    var v := List(FilterStrings(fs, f.key) + [FilterString(f)]);
    FilterKeysAppend(fs, f);
    var j :| 0 <= j < |ks| && ks[j] == f.key;
    FilterParamsUnique(fs);
    AssignAtIndex(m, j, v);
    forall i | 0 <= i < |ks| ensures m'[i] == m[j := Param(f.key, v)][i] {
      FilterStringsAppend(fs, f, ks[i]);
      if i != j {
        assert FilterStrings(fs, ks[i]) + [] == FilterStrings(fs, ks[i]);
      }
    }
  }

  lemma FilterParamsStepNewKey(fs: seq<Filter>, f: Filter)
    requires f.key !in FilterKeys(fs)
    ensures FilterParams(fs + [f]) ==
      Assign(FilterParams(fs), f.key, List(FilterStrings(fs, f.key) + [FilterString(f)]))
  {
    var all := fs + [f];
    var m := FilterParams(fs);
    var m' := FilterParams(all);
    var ks := FilterKeys(fs);
    var v := List(FilterStrings(fs, f.key) + [FilterString(f)]);
    FilterKeysAppend(fs, f);
    AssignNew(m, f.key, v);
    forall i | 0 <= i < |ks| + 1 ensures m'[i] == (m + [Param(f.key, v)])[i] {
      if i < |ks| {
        assert ks[i] != f.key;
        FilterStringsAppend(fs, f, ks[i]);
        assert FilterStrings(fs, ks[i]) + [] == FilterStrings(fs, ks[i]);
        assert m'[i] == Param(ks[i], List(FilterStrings(all, ks[i])));
      } else {
        FilterStringsAppend(fs, f, f.key);
        assert m'[i] == Param(f.key, List(FilterStrings(all, f.key)));
        assert |m| == |ks|;
      }
    }
  }

  /**
   * When no key of the remaining filters is in the head or inherited, the
   * loop leaves the head alone and appends the grouped entries.
   */
  lemma {:induction false} AddFiltersGrouped(head: ParamMap, done: seq<Filter>, rest: seq<Filter>)
    requires forall i :: 0 <= i < |rest| ==> rest[i].key !in Keys(head) && !IsInheritedKey(rest[i].key)
    ensures AddFilters(head + FilterParams(done), rest) == Ok(head + FilterParams(done + rest))
    decreases |rest|
  {
    if rest == [] {
      assert done + rest == done;
    } else {
      var f, tail := rest[0], rest[1..];
      var longer := done + [f];
      assert longer + tail == done + rest;
      AddFilterGrouped(head, done, f);
      AddFiltersStep(head + FilterParams(done), rest, head + FilterParams(longer));
      AddFiltersGrouped(head, longer, tail);
    }
  }

  /** A turn of the loop that succeeds hands its object to the rest of the loop. */
  lemma AddFiltersStep(params: ParamMap, fs: seq<Filter>, next: ParamMap)
    requires fs != [] && AddFilter(params, fs[0]) == Ok(next)
    ensures AddFilters(params, fs) == AddFilters(next, fs[1..])
  {
  }

  /** One turn of the loop on a key outside the head adds that filter to the grouped entries. */
  lemma AddFilterGrouped(head: ParamMap, done: seq<Filter>, f: Filter)
    requires f.key !in Keys(head) && !IsInheritedKey(f.key)
    ensures AddFilter(head + FilterParams(done), f) == Ok(head + FilterParams(done + [f]))
  {
    var k := f.key;
    var p := head + FilterParams(done);
    var v := List(FilterStrings(done, k) + [FilterString(f)]);
    LookupAppend(head, FilterParams(done), k);
    LookupFilterParams(done, k);
    if k !in FilterKeys(done) {
      ClausesOfAbsentKey(done, k);
      assert v == List([FilterString(f)]);
    }
    assert AddFilter(p, f) == Ok(Assign(p, k, v));
    AssignAppend(head, FilterParams(done), k, v);
    FilterParamsStep(done, f);
  }

  /**
   * When no filter uses a reserved key or an `Object.prototype` name, the
   * encoded object is the head followed by one array entry per filter key.
   */
  lemma EncodeGrouped(opts: Options, q: Query)
    requires q.filterBy.Some? ==> forall i :: 0 <= i < |q.filterBy.value| ==>
      !IsReservedKey(opts, q.filterBy.value[i].key) && !IsInheritedKey(q.filterBy.value[i].key)
    ensures Encode(opts, q) ==
      Ok(HeadParams(opts, q) + if q.filterBy.Some? then FilterParams(q.filterBy.value) else [])
  {
    var head := HeadParams(opts, q);
    if q.filterBy.Some? {
      var fs := q.filterBy.value;
      HeadKeysReserved(opts, q);
      AddFiltersGrouped(head, [], fs);
      assert [] + fs == fs;
      assert head + FilterParams([]) == head;
    } else {
      assert head + [] == head;
    }
  }

  /** Every key of the head is a reserved key. */
  lemma HeadKeysReserved(opts: Options, q: Query)
    ensures forall k :: k in Keys(HeadParams(opts, q)) ==> IsReservedKey(opts, k)
  {
    var head := HeadParams(opts, q);
    HeadParamsReserved(opts, q);
    forall k | k in Keys(head) ensures IsReservedKey(opts, k) {
      var j :| 0 <= j < |head| && Keys(head)[j] == k;
    }
  }

  /**
   * Under every key a filter uses, the encoded object holds the array of that
   * key's filter strings, in the order the filters were given.
   */
  lemma EncodeFilterEntries(opts: Options, q: Query, k: string)
    requires q.filterBy.Some? && forall i :: 0 <= i < |q.filterBy.value| ==>
      !IsReservedKey(opts, q.filterBy.value[i].key) && !IsInheritedKey(q.filterBy.value[i].key)
    requires k in FilterKeys(q.filterBy.value)
    ensures Encode(opts, q).Ok?
    ensures Lookup(Encode(opts, q).value, k) == Some(List(FilterStrings(q.filterBy.value, k)))
    ensures |FilterStrings(q.filterBy.value, k)| >= 1
  {
    var fs := q.filterBy.value;
    var head := HeadParams(opts, q);
    EncodeGrouped(opts, q);
    HeadParamsReserved(opts, q);
    FilterKeysMembers(fs);
    ClausesMembers(fs, k);
    var i :| 0 <= i < |fs| && fs[i].key == k;
    LookupAppend(head, FilterParams(fs), k);
    LookupFilterParams(fs, k);
    assert fs[i] in Clauses(fs, k);
  }

  // ----- The encoded object's keys -----

  /** The loop keeps the object's keys unique. */
  lemma {:induction false} AddFiltersUnique(params: ParamMap, fs: seq<Filter>)
    requires UniqueKeys(params)
    ensures AddFilters(params, fs).Ok? ==> UniqueKeys(AddFilters(params, fs).value)
    decreases |fs|
  {
    if fs != [] {
      var f := fs[0];
      var current := Lookup(params, f.key);
      if !(current.None? && IsInheritedKey(f.key)) && (!IsTruthy(current) || current.value.List?) {
        var v := if !IsTruthy(current) then List([FilterString(f)]) else List(current.value.items + [FilterString(f)]);
        AssignUnique(params, f.key, v);
        AddFiltersUnique(Assign(params, f.key, v), fs[1..]);
      }
    }
  }

  /** Whatever it encodes, `queryToHttpQueryParams` gives an object whose keys are unique. */
  lemma EncodeUnique(opts: Options, q: Query)
    ensures Encode(opts, q).Ok? ==> UniqueKeys(Encode(opts, q).value)
  {
    var withPage := if IsTruthyNumber(q.page) then Assign([], opts.pageParamKey, NumberValue(q.page.value)) else [];
    var withLimit :=
      if IsTruthyNumber(q.limit) then Assign(withPage, opts.limitParamKey, NumberValue(q.limit.value)) else withPage;
    AssignUnique([], opts.pageParamKey, NumberValue(q.page.GetOr(Zero)));
    AssignUnique(withPage, opts.limitParamKey, NumberValue(q.limit.GetOr(Zero)));
    AssignUnique(withLimit, opts.sortParamKey, Scalar(SortParam(q.sortBy.GetOr([]))));
    AddFiltersUnique(HeadParams(opts, q), q.filterBy.GetOr([]));
  }
}
