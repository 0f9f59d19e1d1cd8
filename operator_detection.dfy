/**
 * `POSSIBLE_OPERATORS` and the operator detection of `parseFilterStr`: the
 * first token of the list that a string starts with, the list holding the
 * two-character tokens before the one-character ones.
 */
module OperatorDetection {
  import opened Wrappers
  import opened Text
  import opened FilterOperators

  /** The members of `ops` whose token has length `n`, in their order. */
  function WithTokenLength(ops: seq<FilterOperator>, n: nat): seq<FilterOperator> {
    if ops == [] then []
    else (if |Token(ops[0])| == n then [ops[0]] else []) + WithTokenLength(ops[1..], n)
  }

  /** `POSSIBLE_OPERATORS`. */
  const PossibleOperators: seq<FilterOperator> :=
    [Equal, NotEqual, GreaterThanOrEqual, LessThanOrEqual, Contains, GreaterThan, LessThan]

  lemma {:induction false} WithTokenLengthAppend(a: seq<FilterOperator>, b: seq<FilterOperator>, n: nat)
    ensures WithTokenLength(a + b, n) == WithTokenLength(a, n) + WithTokenLength(b, n)
  {
    if a == [] {
      assert a + b == b;
    } else {
      assert (a + b)[0] == a[0] && (a + b)[1..] == a[1..] + b;
      WithTokenLengthAppend(a[1..], b, n);
    }
  }

  lemma {:induction false} WithTokenLengthAll(ops: seq<FilterOperator>, n: nat)
    requires forall i :: 0 <= i < |ops| ==> |Token(ops[i])| == n
    ensures WithTokenLength(ops, n) == ops
  {
    if ops != [] {
      WithTokenLengthAll(ops[1..], n);
      assert [ops[0]] + ops[1..] == ops;
    }
  }

  lemma {:induction false} WithTokenLengthNone(ops: seq<FilterOperator>, n: nat)
    requires forall i :: 0 <= i < |ops| ==> |Token(ops[i])| != n
    ensures WithTokenLength(ops, n) == []
  {
    if ops != [] {
      WithTokenLengthNone(ops[1..], n);
    }
  }

  /** The members of three groups with tokens of length `n`, group by group. */
  lemma WithTokenLengthOfGroups(e: seq<FilterOperator>, o: seq<FilterOperator>, l: seq<FilterOperator>, n: nat)
    ensures WithTokenLength(e + o + l, n) == WithTokenLength(e, n) + WithTokenLength(o, n) + WithTokenLength(l, n)
  {
    WithTokenLengthAppend(e + o, l, n);
    WithTokenLengthAppend(e, o, n);
  }

  /**
   * Sorting three groups by token length, longest first and stably, where
   * the first and last groups hold two-character tokens and the middle one
   * one-character tokens, moves the middle group to the end.
   */
  lemma GroupsStableSorted(e: seq<FilterOperator>, o: seq<FilterOperator>, l: seq<FilterOperator>)
    requires forall i :: 0 <= i < |e| ==> |Token(e[i])| == 2
    requires forall i :: 0 <= i < |o| ==> |Token(o[i])| == 1
    requires forall i :: 0 <= i < |l| ==> |Token(l[i])| == 2
    ensures WithTokenLength(e + o + l, 2) + WithTokenLength(e + o + l, 1) == e + l + o
  {
    WithTokenLengthOfGroups(e, o, l, 2);
    WithTokenLengthOfGroups(e, o, l, 1);
    WithTokenLengthAll(e, 2);
    WithTokenLengthNone(o, 2);
    WithTokenLengthAll(l, 2);
    WithTokenLengthNone(e, 1);
    WithTokenLengthAll(o, 1);
    WithTokenLengthNone(l, 1);
    assert e + [] == e;
    assert [] + o == o;
    assert o + [] == o;
  }

  /**
   * The list is the enum sorted by token length, longest first, keeping the
   * declaration order among tokens of one length (a stable sort).
   */
  lemma PossibleOperatorsStableSorted()
    ensures PossibleOperators == WithTokenLength(AllOperators, 2) + WithTokenLength(AllOperators, 1)
  {
    var equalities, orderings, longer := [Equal, NotEqual], [GreaterThan, LessThan],
      [GreaterThanOrEqual, LessThanOrEqual, Contains];
    assert AllOperators == equalities + orderings + longer;
    assert PossibleOperators == equalities + longer + orderings;
    GroupsStableSorted(equalities, orderings, longer);
  }

  /** Moving a group to the end changes no member's count. */
  lemma GroupsPermutation(e: seq<FilterOperator>, o: seq<FilterOperator>, l: seq<FilterOperator>)
    ensures multiset(e + l + o) == multiset(e + o + l)
  {
    calc {
      multiset(e + l + o);
      multiset(e) + multiset(l) + multiset(o);
      multiset(e) + multiset(o) + multiset(l);
      multiset(e + o + l);
    }
  }

  /** The list holds each member of the enum exactly as often as the enum does. */
  lemma PossibleOperatorsPermutation()
    ensures multiset(PossibleOperators) == multiset(AllOperators)
  {
    var equalities, orderings, longer := [Equal, NotEqual], [GreaterThan, LessThan],
      [GreaterThanOrEqual, LessThanOrEqual, Contains];
    assert PossibleOperators == equalities + longer + orderings;
    assert AllOperators == equalities + orderings + longer;
    GroupsPermutation(equalities, orderings, longer);
  }

  /** No token in the list is longer than one before it. */
  lemma PossibleOperatorsByLength()
    ensures forall i, j :: 0 <= i < j < |PossibleOperators| ==>
      |Token(PossibleOperators[i])| >= |Token(PossibleOperators[j])|
  {
    forall i, j | 0 <= i < j < |PossibleOperators|
      ensures |Token(PossibleOperators[i])| >= |Token(PossibleOperators[j])|
    {
      assert i < 5 ==> |Token(PossibleOperators[i])| == 2;
      assert j >= 5 ==> |Token(PossibleOperators[j])| == 1;
    }
  }

  /** Every member of the enum is in the list. */
  lemma PossibleOperatorsComplete()
    ensures forall op :: op in PossibleOperators
  {
    forall op ensures op in PossibleOperators {
      match op
      case Equal => assert PossibleOperators[0] == op;
      case NotEqual => assert PossibleOperators[1] == op;
      case GreaterThanOrEqual => assert PossibleOperators[2] == op;
      case LessThanOrEqual => assert PossibleOperators[3] == op;
      case Contains => assert PossibleOperators[4] == op;
      case GreaterThan => assert PossibleOperators[5] == op;
      case LessThan => assert PossibleOperators[6] == op;
    }
  }

  /** `ops.find(op => t.startsWith(op))`: the first member whose token starts `t`. */
  function FirstTokenPrefix(ops: seq<FilterOperator>, t: string): Option<FilterOperator> {
    if ops == [] then None
    else if StartsWith(t, Token(ops[0])) then Some(ops[0])
    else FirstTokenPrefix(ops[1..], t)
  }

  /**
   * The search finds nothing exactly when no token of `ops` starts `t`, and
   * otherwise a member whose token starts `t` and before which no token does.
   */
  lemma {:induction false} FirstTokenPrefixFinds(ops: seq<FilterOperator>, t: string)
    ensures FirstTokenPrefix(ops, t).None? <==> forall i :: 0 <= i < |ops| ==> !StartsWith(t, Token(ops[i]))
    ensures FirstTokenPrefix(ops, t).Some? ==>
      exists i :: 0 <= i < |ops| && ops[i] == FirstTokenPrefix(ops, t).value && StartsWith(t, Token(ops[i])) &&
        (forall j :: 0 <= j < i ==> !StartsWith(t, Token(ops[j])))
  {
    if ops != [] && !StartsWith(t, Token(ops[0])) {
      FirstTokenPrefixFinds(ops[1..], t);
      assert forall i :: 1 <= i < |ops| ==> ops[i] == ops[1..][i - 1];
      if FirstTokenPrefix(ops, t).Some? {
        var i :| 0 <= i < |ops[1..]| && ops[1..][i] == FirstTokenPrefix(ops, t).value
          && StartsWith(t, Token(ops[1..][i])) && (forall j :: 0 <= j < i ==> !StartsWith(t, Token(ops[1..][j])));
        assert ops[i + 1] == ops[1..][i];
      }
    } else if ops != [] {
      assert ops[0] == FirstTokenPrefix(ops, t).value;
    }
  }

  /** The operator detected at the start of `t`. */
  function DetectOperator(t: string): Option<FilterOperator> {
    FirstTokenPrefix(PossibleOperators, t)
  }

  /** Two tokens that both start a string and have one length are the same token. */
  lemma SameLengthPrefixes(t: string, a: FilterOperator, b: FilterOperator)
    requires StartsWith(t, Token(a)) && StartsWith(t, Token(b)) && |Token(a)| == |Token(b)|
    ensures a == b
  {
    TokenInjective(a, b);
  }

  /**
   * Detection finds no operator exactly when no token starts `t`; otherwise
   * it finds the longest token that starts `t`, and no other of that length.
   */
  lemma DetectOperatorIsLongest(t: string)
    ensures DetectOperator(t).None? <==> forall op :: !StartsWith(t, Token(op))
    ensures DetectOperator(t).Some? ==> StartsWith(t, Token(DetectOperator(t).value))
    ensures DetectOperator(t).Some? ==> forall op :: StartsWith(t, Token(op)) ==>
      op == DetectOperator(t).value || |Token(op)| < |Token(DetectOperator(t).value)|
  {
    PossibleOperatorsComplete();
    PossibleOperatorsByLength();
    FirstTokenPrefixFinds(PossibleOperators, t);
    var r := DetectOperator(t);
    if r.Some? {
      var d := r.value;
      var i :| 0 <= i < |PossibleOperators| && PossibleOperators[i] == d && StartsWith(t, Token(d))
        && forall j :: 0 <= j < i ==> !StartsWith(t, Token(PossibleOperators[j]));
      forall op | StartsWith(t, Token(op)) ensures op == d || |Token(op)| < |Token(d)| {
        assert op in PossibleOperators;
        var j :| 0 <= j < |PossibleOperators| && PossibleOperators[j] == op;
        if j < i {
          assert false;
        } else if j > i {
          assert |Token(PossibleOperators[i])| >= |Token(PossibleOperators[j])|;
          if |Token(op)| == |Token(d)| {
            SameLengthPrefixes(t, op, d);
          }
        }
      }
    } else {
      forall op ensures !StartsWith(t, Token(op)) {
        assert op in PossibleOperators;
        var j :| 0 <= j < |PossibleOperators| && PossibleOperators[j] == op;
      }
    }
  }

  /**
   * A string that begins with a token is detected as that token's operator,
   * unless the token is ">" or "<" and an '=' follows it, which makes the
   * longer ">=" or "<=" the match.
   */
  lemma DetectTokenPrefix(op: FilterOperator, rest: string)
    requires !((op == GreaterThan || op == LessThan) && |rest| > 0 && rest[0] == '=')
    ensures DetectOperator(Token(op) + rest) == Some(op)
  {
    var t := Token(op) + rest;
    assert t[..|Token(op)|] == Token(op);
    DetectOperatorIsLongest(t);
    var d := DetectOperator(t).value;
    if d != op {
      TokenPrefixes(op, d);
    }
  }

  /** No operator is detected in a string that does not start with an operator symbol. */
  lemma DetectNothing(t: string)
    requires t == [] || !IsOperatorSymbol(t[0])
    ensures DetectOperator(t) == None
  {
    DetectOperatorIsLongest(t);
    forall op ensures !StartsWith(t, Token(op)) {
      var p := Token(op);
      if t != [] && |p| <= |t| {
        assert IsOperatorSymbol(p[0]);
        assert t[..|p|][0] != p[0];
      }
    }
  }
}
