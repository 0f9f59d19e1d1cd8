/**
 * Translation of a filter operator into the comparison of a SQL `WHERE`
 * clause, and the Mongo counterpart that is declared but not implemented.
 */
module SqlOperator {
  import opened Wrappers
  import opened FilterOperators
  import opened Records

  /** The four ordering comparisons, which SQL spells as the filter tokens do. */
  predicate IsOrderingOperator(op: FilterOperator) {
    op == GreaterThan || op == LessThan || op == GreaterThanOrEqual || op == LessThanOrEqual
  }

  /**
   * `filterOperatorToSqlOperator`: the operator arrives as a string (an enum
   * value or any other text). A comparison with null becomes `IS` or
   * `IS NOT`; every token of the enum maps to a SQL operator and every other
   * string is refused.
   */
  function FilterOperatorToSqlOperator(operator: string, value: Value): (r: Result<string, Error>)
    ensures r.Ok? <==> exists op :: operator == Token(op)
    ensures r.Err? ==> r.error == OperatorNotRecognized
    ensures operator == Token(Equal) ==> r == Ok(if value == Null then "IS" else "=")
    ensures operator == Token(NotEqual) ==> r == Ok(if value == Null then "IS NOT" else "<>")
    ensures operator == Token(Contains) ==> r == Ok("LIKE")
    ensures forall op :: IsOrderingOperator(op) && operator == Token(op) ==> r == Ok(operator)
  {
    if operator == "==" && value == Null then assert operator == Token(Equal); Ok("IS")
    else if operator == "!=" && value == Null then assert operator == Token(NotEqual); Ok("IS NOT")
    else if operator == "==" then assert operator == Token(Equal); Ok("=")
    else if operator == "!=" then assert operator == Token(NotEqual); Ok("<>")
    else if operator == "@=" then assert operator == Token(Contains); Ok("LIKE")
    else if operator in [">", "<", ">=", "<="] then
      assert operator in [Token(GreaterThan), Token(LessThan), Token(GreaterThanOrEqual), Token(LessThanOrEqual)];
      Ok(operator)
    else
      assert forall op :: operator != Token(op);
      Err(OperatorNotRecognized)
  }

  /** Null only changes the translation of equality and inequality. */
  lemma SqlNullOnlyAffectsEquality(op: FilterOperator, v: Value, w: Value)
    requires op != Equal && op != NotEqual
    ensures FilterOperatorToSqlOperator(Token(op), v) == FilterOperatorToSqlOperator(Token(op), w)
  {
  }

  /** `filterOperatorToMongoOperator`: a stub that fails with 'Not Implemented' whatever it is given. */
  function FilterOperatorToMongoOperator(operator: string, value: Value): (r: Result<string, Error>)
    ensures r.Err? && r.error == NotImplemented
  {
    Err(NotImplemented)
  }
}
