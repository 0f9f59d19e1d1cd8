/**
 * `DclFilterOperator`: the seven filter operators and the symbolic token
 * each one stands for on the wire.
 */
module FilterOperators {
  import opened Text

  datatype FilterOperator =
    | Equal               // "=="
    | NotEqual            // "!="
    | GreaterThan         // ">"
    | LessThan            // "<"
    | GreaterThanOrEqual  // ">="
    | LessThanOrEqual     // "<="
    | Contains            // "@="

  /** The characters operator tokens are made of. */
  predicate IsOperatorSymbol(c: char) {
    c == '=' || c == '!' || c == '<' || c == '>' || c == '@'
  }

  /** The string value of the enum member. */
  function Token(op: FilterOperator): (t: string)
    ensures 1 <= |t| <= 2
    ensures forall i :: 0 <= i < |t| ==> IsOperatorSymbol(t[i])
  {
    match op
    case Equal => "=="
    case NotEqual => "!="
    case GreaterThan => ">"
    case LessThan => "<"
    case GreaterThanOrEqual => ">="
    case LessThanOrEqual => "<="
    case Contains => "@="
  }

  /** The members in declaration order. */
  const AllOperators: seq<FilterOperator> :=
    [Equal, NotEqual, GreaterThan, LessThan, GreaterThanOrEqual, LessThanOrEqual, Contains]

  /** The enum has exactly seven members, each listed once. */
  lemma AllOperatorsComplete()
    ensures |AllOperators| == 7
    ensures forall op: FilterOperator :: op in AllOperators
    ensures forall i, j :: 0 <= i < j < |AllOperators| ==> AllOperators[i] != AllOperators[j]
  {
    forall op: FilterOperator ensures op in AllOperators {
      match op
      case Equal => assert AllOperators[0] == op;
      case NotEqual => assert AllOperators[1] == op;
      case GreaterThan => assert AllOperators[2] == op;
      case LessThan => assert AllOperators[3] == op;
      case GreaterThanOrEqual => assert AllOperators[4] == op;
      case LessThanOrEqual => assert AllOperators[5] == op;
      case Contains => assert AllOperators[6] == op;
    }
  }

  /** No operator symbol is a letter, a digit or white space. */
  lemma OperatorSymbolsAreNotAlphanumeric(c: char)
    requires IsOperatorSymbol(c)
    ensures !IsAlphanumeric(c) && !IsWhiteSpace(c)
  {
  }

  /** Distinct operators have distinct tokens, so a token names exactly one operator. */
  lemma TokenInjective(a: FilterOperator, b: FilterOperator)
    ensures Token(a) == Token(b) <==> a == b
  {
  }

  /**
   * The only token that is a proper prefix of another is the one-character
   * comparison inside its "or equal" form: ">" of ">=" and "<" of "<=".
   */
  lemma TokenPrefixes(a: FilterOperator, b: FilterOperator)
    ensures a != b && StartsWith(Token(b), Token(a)) <==>
            (a == GreaterThan && b == GreaterThanOrEqual) || (a == LessThan && b == LessThanOrEqual)
  {
    if a != b && StartsWith(Token(b), Token(a)) {
      assert |Token(a)| < |Token(b)| by {
        if |Token(a)| == |Token(b)| {
          assert Token(b)[..|Token(a)|] == Token(b);
          TokenInjective(a, b);
        }
      }
      assert Token(b)[0] == Token(a)[0];
    }
    if a == GreaterThan && b == GreaterThanOrEqual {
      assert Token(b)[..1] == ">";
    }
    if a == LessThan && b == LessThanOrEqual {
      assert Token(b)[..1] == "<";
    }
  }
}
