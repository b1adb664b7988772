/** The expression tree of the interpreter: a closed sum type whose three
    operator variants each own an ordered list of children, and whose leaf
    holds a number. The source's 64-bit floats are modelled as exact reals. */
module Expressions {

  datatype Expression =
    | Add(children: seq<Expression>)
    | Multiply(children: seq<Expression>)
    | Subtract(children: seq<Expression>)
    | Number(val: real)

  /** A tree is well formed when no Subtract node, at any depth, has an empty
      child list; these are exactly the trees the evaluator does not panic on. */
  predicate WellFormed(e: Expression) {
    match e
    case Add(cs) => forall c | c in cs :: WellFormed(c)
    case Multiply(cs) => forall c | c in cs :: WellFormed(c)
    case Subtract(cs) => |cs| > 0 && forall c | c in cs :: WellFormed(c)
    case Number(_) => true
  }
}
