/** The trees the program's entry point builds, and small trees that pin
    down each operator's behaviour, evaluated in exact arithmetic. */
module Examples {
  import opened Expressions
  import opened Evaluator

  /** `Add([3, 4, 5])`, the inner tree of the entry point. */
  function Twelve(): (e: Expression)
    ensures Evaluate(e) == Ok(12.0)
  {
    Add([Number(3.0), Number(4.0), Number(5.0)])
  }

  /** `Multiply([2.5, Add([3, 4, 5])])` evaluates to 30. */
  function Thirty(): (e: Expression)
    ensures Evaluate(e) == Ok(30.0)
  {
    Multiply([Number(2.5), Twelve()])
  }

  /** `Subtract([Multiply([2.5, Add([3, 4, 5])]), 2.2])` evaluates to 27.8. */
  function TwentySevenPointEight(): (e: Expression)
    ensures Evaluate(e) == Ok(27.8)
  {
    Subtract([Thirty(), Number(2.2)])
  }

  /** Subtraction associates to the left: 9 - 2 - 3 is 4, not 9 - (2 - 3) = 10;
      and 4 - 2 is 2. Sums and products over literals, and the empty
      Subtract nested under an Add, which makes the whole tree fail. */
  lemma {:induction false} SmallTrees()
    ensures Evaluate(Subtract([Number(9.0), Number(2.0), Number(3.0)])) == Ok(4.0)
    ensures Evaluate(Subtract([Number(4.0), Number(2.0)])) == Ok(2.0)
    ensures Evaluate(Add([Number(2.0), Number(2.0)])) == Ok(4.0)
    ensures Evaluate(Multiply([Number(2.0), Number(2.0)])) == Ok(4.0)
    ensures Evaluate(Add([Number(1.0), Subtract([])])) == Err(EmptySubtract)
  {
  }
}
