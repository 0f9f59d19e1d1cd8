/**
 * The plain records the query builder reads and writes: `DclQuery`,
 * `DclSort`, `DclFilter`, the flat HTTP parameter object, and the errors the
 * builder throws.
 */
module Records {
  import opened Wrappers
  import opened Numbers
  import opened FilterOperators

  /** The errors the builder raises: 'Operator not recognized', 'Not Implemented', and a JavaScript TypeError. */
  datatype Error = OperatorNotRecognized | NotImplemented | TypeError

  /** `string | number | boolean | null | undefined`, the type of a filter value. */
  datatype Value = Str(s: string) | Num(n: Number) | Bool(b: bool) | Null | Undefined

  /** `${value}`: the generic string conversion the encoder applies to a filter value. */
  function ValueText(v: Value): string {
    match v
    case Str(s) => s
    case Num(n) => Render(n)
    case Bool(b) => if b then "true" else "false"
    case Null => "null"
    case Undefined => "undefined"
  }

  datatype SortDirection = Asc | Desc

  /** `DclSort`; the encoder also accepts a clause without an order and reads it as ascending. */
  datatype Sort = Sort(key: string, order: Option<SortDirection>)

  /** `DclFilter`. */
  datatype Filter = Filter(key: string, operator: FilterOperator, value: Value)

  /** `DclQuery`: every field is optional. */
  datatype Query = Query(
    page: Option<Number>,
    limit: Option<Number>,
    sortBy: Option<seq<Sort>>,
    filterBy: Option<seq<Filter>>)

  const EmptyQuery := Query(None, None, None, None)

  /**
   * A value of the HTTP parameter object: a string, an array of strings,
   * or a number (the encoder stores page and limit as numbers).
   */
  datatype ParamValue = Scalar(text: string) | List(items: seq<string>) | NumberValue(number: Number)

  datatype Param = Param(key: string, value: ParamValue)

  /** The parameter object, its keys in enumeration order. */
  type ParamMap = seq<Param>

  function Keys(m: ParamMap): (ks: seq<string>)
    ensures |ks| == |m| && forall i :: 0 <= i < |m| ==> ks[i] == m[i].key
  {
    seq(|m|, i requires 0 <= i < |m| => m[i].key)
  }

  /** A JavaScript object holds each key once. */
  predicate UniqueKeys(m: ParamMap) {
    forall i, j :: 0 <= i < j < |m| ==> m[i].key != m[j].key
  }

  /** `m[k]`: the value stored under `k`, None for undefined. */
  function Lookup(m: ParamMap, k: string): Option<ParamValue> {
    if m == [] then None
    else if m[0].key == k then Some(m[0].value)
    else Lookup(m[1..], k)
  }

  /** A key reads as undefined exactly when the object lacks it. */
  lemma {:induction false} LookupAbsent(m: ParamMap, k: string)
    ensures Lookup(m, k).None? <==> k !in Keys(m)
  {
    if m != [] {
      KeysUncons(m);
      LookupAbsent(m[1..], k);
    }
  }

  /** A key that reads as defined reads the value of one of the object's entries. */
  lemma {:induction false} LookupFound(m: ParamMap, k: string)
    requires Lookup(m, k).Some?
    ensures exists i :: 0 <= i < |m| && m[i] == Param(k, Lookup(m, k).value)
  {
    if m[0].key != k {
      LookupFound(m[1..], k);
      var i :| 0 <= i < |m[1..]| && m[1..][i] == Param(k, Lookup(m, k).value);
      assert m[i + 1] == m[1..][i];
    }
  }

  /** Lookup in a map with unique keys returns the value at the key's position. */
  lemma LookupAt(m: ParamMap, i: nat)
    requires UniqueKeys(m) && i < |m|
    ensures Lookup(m, m[i].key) == Some(m[i].value)
  {
    if i > 0 {
      assert m[1..][i - 1] == m[i];
      LookupAt(m[1..], i - 1);
    }
  }

  /** A lookup in two objects laid end to end finds the front's entry when there is one, else the back's. */
  lemma {:induction false} LookupConcat(front: ParamMap, back: ParamMap, k: string)
    ensures Lookup(front + back, k) == if Lookup(front, k).Some? then Lookup(front, k) else Lookup(back, k)
  {
    if front == [] {
      assert front + back == back;
    } else {
      assert (front + back)[0] == front[0] && (front + back)[1..] == front[1..] + back;
      LookupConcat(front[1..], back, k);
    }
  }

  /**
   * `m[k] = v`: an existing key keeps its place and gets the new value, a new
   * key goes last.
   */
  function Assign(m: ParamMap, k: string, v: ParamValue): (r: ParamMap)
    ensures |r| == if k in Keys(m) then |m| else |m| + 1
  {
    if m == [] then [Param(k, v)]
    else if m[0].key == k then [Param(k, v)] + m[1..]
    else
      assert k in Keys(m) <==> k in Keys(m[1..]) by {
        KeysUncons(m);
      }
      [m[0]] + Assign(m[1..], k, v)
  }

  /** After `m[k] = v`, `m[k]` is `v` and every other key reads as before. */
  lemma {:induction false} AssignLookup(m: ParamMap, k: string, v: ParamValue)
    ensures Lookup(Assign(m, k, v), k) == Some(v)
    ensures forall k' :: k' != k ==> Lookup(Assign(m, k, v), k') == Lookup(m, k')
  {
    if m != [] && m[0].key != k {
      AssignLookup(m[1..], k, v);
    }
  }

  /** The keys of an object with one more entry in front. */
  lemma KeysCons(p: Param, m: ParamMap)
    ensures Keys([p] + m) == [p.key] + Keys(m)
  {
    var l, r := Keys([p] + m), [p.key] + Keys(m);
    forall i | 0 <= i < |l| ensures l[i] == r[i] {
      if i > 0 {
        assert ([p] + m)[i] == m[i - 1];
      }
    }
  }

  /** The keys of a non-empty object: its first key, then the keys of the rest. */
  lemma KeysUncons(m: ParamMap)
    requires m != []
    ensures Keys(m) == [m[0].key] + Keys(m[1..])
  {
    assert m == [m[0]] + m[1..];
    KeysCons(m[0], m[1..]);
  }

  /** `m[k] = v` keeps the keys in place and appends a new one. */
  lemma {:induction false} AssignKeys(m: ParamMap, k: string, v: ParamValue)
    ensures Keys(Assign(m, k, v)) == if k in Keys(m) then Keys(m) else Keys(m) + [k]
  {
    if m != [] {
      var tail := m[1..];
      KeysUncons(m);
      if m[0].key != k {
        AssignKeys(tail, k, v);
        KeysCons(m[0], Assign(tail, k, v));
      } else {
        KeysCons(Param(k, v), tail);
      }
    }
  }

  /** `m[k] = v` keeps the keys of an object unique. */
  lemma AssignUnique(m: ParamMap, k: string, v: ParamValue)
    requires UniqueKeys(m)
    ensures UniqueKeys(Assign(m, k, v))
  {
    var r := Assign(m, k, v);
    AssignKeys(m, k, v);
    forall i, j | 0 <= i < j < |r| ensures r[i].key != r[j].key {
      assert r[i].key == Keys(r)[i] && r[j].key == Keys(r)[j];
      if j == |m| {
        assert Keys(m)[i] == m[i].key;
      }
    }
  }

  /** Writing a key that is already present replaces the entry in place. */
  lemma {:induction false} AssignAtIndex(m: ParamMap, i: nat, v: ParamValue)
    requires UniqueKeys(m) && i < |m|
    ensures Assign(m, m[i].key, v) == m[i := Param(m[i].key, v)]
  {
    if i > 0 {
      assert m[0].key != m[i].key;
      assert UniqueKeys(m[1..]) && m[1..][i - 1] == m[i];
      AssignAtIndex(m[1..], i - 1, v);
      assert m[1..][i - 1 := Param(m[i].key, v)] == m[i := Param(m[i].key, v)][1..];
    }
  }

  /** Writing a new key appends an entry. */
  lemma {:induction false} AssignNew(m: ParamMap, k: string, v: ParamValue)
    requires k !in Keys(m)
    ensures Assign(m, k, v) == m + [Param(k, v)]
  {
    if m != [] {
      KeysUncons(m);
      AssignNew(m[1..], k, v);
      assert [m[0]] + (m[1..] + [Param(k, v)]) == m + [Param(k, v)];
    }
  }

  /** Writing twice to one key leaves only the second value. */
  lemma {:induction false} AssignTwice(m: ParamMap, k: string, v: ParamValue, w: ParamValue)
    ensures Assign(Assign(m, k, v), k, w) == Assign(m, k, w)
  {
    if m != [] && m[0].key != k {
      AssignTwice(m[1..], k, v, w);
    }
  }

  /** Reading a key that the front part of a map lacks reads the back part. */
  lemma {:induction false} LookupAppend(front: ParamMap, back: ParamMap, k: string)
    requires k !in Keys(front)
    ensures Lookup(front + back, k) == Lookup(back, k)
  {
    if front != [] {
      KeysUncons(front);
      assert (front + back)[1..] == front[1..] + back;
      assert (front + back)[0] == front[0];
      assert front[0].key != k && k !in Keys(front[1..]);
      assert Lookup(front + back, k) == Lookup(front[1..] + back, k);
      LookupAppend(front[1..], back, k);
    } else {
      assert front + back == back;
    }
  }

  /** Writing a key past a first entry of another key keeps that entry in front. */
  lemma AssignCons(p: Param, m: ParamMap, k: string, v: ParamValue)
    requires p.key != k
    ensures Assign([p] + m, k, v) == [p] + Assign(m, k, v)
  {
    assert ([p] + m)[1..] == m;
  }

  /** A non-empty front part, laid before a back part, splits at its first element. */
  lemma AppendUncons<T>(front: seq<T>, back: seq<T>)
    requires front != []
    ensures front + back == [front[0]] + (front[1..] + back)
  {
    assert front == [front[0]] + front[1..];
  }

  /** A key missing from an object is missing from its first entry and from the rest. */
  lemma KeysAbsentUncons(m: ParamMap, k: string)
    requires m != [] && k !in Keys(m)
    ensures m[0].key != k && k !in Keys(m[1..])
  {
    KeysUncons(m);
  }

  /** Writing a key that the front part of a map lacks writes the back part. */
  lemma {:induction false} AssignAppend(front: ParamMap, back: ParamMap, k: string, v: ParamValue)
    requires k !in Keys(front)
    ensures Assign(front + back, k, v) == front + Assign(back, k, v)
  {
    if front != [] {
      KeysAbsentUncons(front, k);
      AppendUncons(front, back);
      AssignCons(front[0], front[1..] + back, k, v);
      AssignAppend(front[1..], back, k, v);
      AppendUncons(front, Assign(back, k, v));
    } else {
      assert front + back == back;
    }
  }

  /**
   * The names every object literal inherits from `Object.prototype`. Reading
   * one of them from an object without an own entry of that name gives a
   * function or an object: truthy, and not an array.
   */
  const ObjectPrototypeKeys: seq<string> := [
    "constructor", "hasOwnProperty", "isPrototypeOf", "propertyIsEnumerable", "toString", "valueOf",
    "toLocaleString", "__proto__", "__defineGetter__", "__defineSetter__", "__lookupGetter__", "__lookupSetter__"]

  predicate IsInheritedKey(k: string) {
    k in ObjectPrototypeKeys
  }

  /** JavaScript truthiness of a parameter value (`undefined`, "" and 0 are falsy; arrays never are). */
  predicate IsTruthy(v: Option<ParamValue>) {
    match v
    case None => false
    case Some(Scalar(s)) => s != ""
    case Some(List(_)) => true
    case Some(NumberValue(n)) => !IsZero(n)
  }

  /** JavaScript truthiness of an optional number. */
  predicate IsTruthyNumber(n: Option<Number>) {
    n.Some? && !IsZero(n.value)
  }
}
