/** The evaluator: a depth-first reduction of an expression tree to a number.
    `Add` and `Multiply` fold their children left to right from 0 and 1;
    `Subtract` seeds its fold with the first child and subtracts each later
    child in turn. A Subtract with no children has no first child, and the
    source's `unwrap` panics there; that panic is the `Err` outcome here. */
module Evaluator {
  import opened Expressions

  /** The one failure evaluation can meet: a Subtract node with no children. */
  datatype Error = EmptySubtract

  /** What evaluating a tree gives: a number, or the panic. */
  datatype Outcome = Ok(value: real) | Err(error: Error)

  /** The step each operator's fold applies to its running total. */
  datatype Op = Plus | Times | Minus

  function Apply(op: Op, total: real, next: real): real {
    match op
    case Plus => total + next
    case Times => total * next
    case Minus => total - next
  }

  /** One fold step over outcomes: it fails when either side failed, and
      otherwise applies the step. */
  function Combine(op: Op, total: Outcome, next: Outcome): Outcome {
    if total.Err? then total
    else if next.Err? then next
    else Ok(Apply(op, total.value, next.value))
  }

  /** Evaluates a tree; it succeeds exactly on the well-formed trees. */
  function Evaluate(e: Expression): (r: Outcome)
    ensures r.Ok? <==> WellFormed(e)
    decreases e, 1
  {
    match e
    case Add(cs) => Fold(Plus, 0.0, cs)
    case Multiply(cs) => Fold(Times, 1.0, cs)
    case Subtract(cs) =>
      if |cs| == 0 then Err(EmptySubtract)
      else
        (match Evaluate(cs[0])
         case Err(err) => Err(err)
         case Ok(first) => Fold(Minus, first, cs[1..]))
    case Number(v) => Ok(v)
  }

  /** The iterator fold: evaluates the children left to right, stepping the
      running total with each value; the first failing child aborts it. */
  function Fold(op: Op, total: real, cs: seq<Expression>): (r: Outcome)
    ensures r.Ok? <==> forall i | 0 <= i < |cs| :: WellFormed(cs[i])
    decreases cs, 0
  {
    if |cs| == 0 then Ok(total)
    else
      match Evaluate(cs[0])
      case Err(err) => Err(err)
      case Ok(v) => Fold(op, Apply(op, total, v), cs[1..])
  }
}
