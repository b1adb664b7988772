/** What the evaluator computes, stated against the reference reductions and
    as the fold equations of each operator. */
module Laws {
  import opened Expressions
  import opened Arithmetic
  import opened Evaluator

  datatype Option<+T> = None | Some(value: T)

  /** The children's values, left to right; None when any child fails. */
  function Values(cs: seq<Expression>): (r: Option<seq<real>>)
    ensures r.Some? <==> forall i | 0 <= i < |cs| :: Evaluate(cs[i]).Ok?
    ensures r.Some? ==> |r.value| == |cs|
    ensures r.Some? ==> forall i | 0 <= i < |cs| :: r.value[i] == Evaluate(cs[i]).value
  {
    if |cs| == 0 then Some([])
    else
      match Evaluate(cs[0])
      case Err(_) => None
      case Ok(v) =>
        (match Values(cs[1..])
         case None => None
         case Some(vs) => Some([v] + vs))
  }

  /** What folding `op` over the values `xs` from `total` amounts to. */
  function Total(op: Op, total: real, xs: seq<real>): real {
    match op
    case Plus => total + Sum(xs)
    case Times => total * Product(xs)
    case Minus => total - Sum(xs)
  }

  /** One fold step moves the first value into the running total. */
  lemma {:induction false} TotalCons(op: Op, total: real, v: real, xs: seq<real>)
    ensures Total(op, Apply(op, total, v), xs) == Total(op, total, [v] + xs)
  {
    match op
    case Plus => SumCons(v, xs);
    case Times =>
      ProductCons(v, xs);
      assert (total * v) * Product(xs) == total * (v * Product(xs));
    case Minus => SumCons(v, xs);
  }

  /** The fold over the children is the reference reduction of their values. */
  lemma {:induction false} FoldIsTotal(op: Op, total: real, cs: seq<Expression>)
    ensures Values(cs).Some? ==> Fold(op, total, cs) == Ok(Total(op, total, Values(cs).value))
    ensures Values(cs).None? ==> Fold(op, total, cs) == Err(EmptySubtract)
    decreases |cs|
  {
    if |cs| > 0 {
      var v := Evaluate(cs[0]);
      if v.Ok? {
        FoldIsTotal(op, Apply(op, total, v.value), cs[1..]);
        var rest := Values(cs[1..]);
        if rest.Some? {
          TotalCons(op, total, v.value, rest.value);
        }
      }
    }
  }

  /** Add is the sum of its children's values: 0 for no children. */
  lemma {:induction false} AddIsSum(cs: seq<Expression>)
    ensures Values(cs).Some? ==> Evaluate(Add(cs)) == Ok(Sum(Values(cs).value))
    ensures Values(cs).None? ==> Evaluate(Add(cs)) == Err(EmptySubtract)
  {
    FoldIsTotal(Plus, 0.0, cs);
  }

  /** Multiply is the product of its children's values: 1 for no children. */
  lemma {:induction false} MultiplyIsProduct(cs: seq<Expression>)
    ensures Values(cs).Some? ==> Evaluate(Multiply(cs)) == Ok(Product(Values(cs).value))
    ensures Values(cs).None? ==> Evaluate(Multiply(cs)) == Err(EmptySubtract)
  {
    FoldIsTotal(Times, 1.0, cs);
  }

  /** Subtract is its first child's value minus the sum of all the others;
      with no children it fails. */
  lemma {:induction false} SubtractIsDifference(cs: seq<Expression>)
    ensures |cs| == 0 ==> Evaluate(Subtract(cs)) == Err(EmptySubtract)
    ensures |cs| > 0 && Values(cs).Some? ==> Evaluate(Subtract(cs)) == Ok(Difference(Values(cs).value))
    ensures Values(cs).None? ==> Evaluate(Subtract(cs)) == Err(EmptySubtract)
  {
    if |cs| > 0 {
      var first := Evaluate(cs[0]);
      if first.Ok? {
        assert Evaluate(Subtract(cs)) == Fold(Minus, first.value, cs[1..]);
        FoldIsTotal(Minus, first.value, cs[1..]);
        var rest := Values(cs[1..]);
        if rest.Some? {
          var xs := [first.value] + rest.value;
          assert Values(cs) == Some(xs);
          assert xs[1..] == rest.value;
          assert Difference(xs) == first.value - Sum(rest.value);
        }
      }
    }
  }

  /** Appending a child to a fold applies one more step to its outcome. */
  lemma {:induction false} FoldSnoc(op: Op, total: real, cs: seq<Expression>, c: Expression)
    ensures Fold(op, total, cs + [c]) == Combine(op, Fold(op, total, cs), Evaluate(c))
    decreases |cs|
  {
    if |cs| == 0 {
      assert (cs + [c])[1..] == [];
    } else {
      assert (cs + [c])[0] == cs[0];
      assert (cs + [c])[1..] == cs[1..] + [c];
      if Evaluate(cs[0]).Ok? {
        FoldSnoc(op, Apply(op, total, Evaluate(cs[0]).value), cs[1..], c);
      }
    }
  }

  /** Appending a child to an Add adds its value. */
  lemma {:induction false} AddSnoc(cs: seq<Expression>, c: Expression)
    ensures Evaluate(Add(cs + [c])) == Combine(Plus, Evaluate(Add(cs)), Evaluate(c))
  {
    FoldSnoc(Plus, 0.0, cs, c);
  }

  /** Appending a child to a Multiply multiplies by its value. */
  lemma {:induction false} MultiplySnoc(cs: seq<Expression>, c: Expression)
    ensures Evaluate(Multiply(cs + [c])) == Combine(Times, Evaluate(Multiply(cs)), Evaluate(c))
  {
    FoldSnoc(Times, 1.0, cs, c);
  }

  /** Appending a child to a non-empty Subtract subtracts its value from the
      running difference: subtraction associates to the left. */
  lemma {:induction false} SubtractSnoc(first: Expression, rest: seq<Expression>, c: Expression)
    ensures Evaluate(Subtract([first] + rest + [c]))
         == Combine(Minus, Evaluate(Subtract([first] + rest)), Evaluate(c))
  {
    assert ([first] + rest + [c])[0] == first;
    assert ([first] + rest + [c])[1..] == rest + [c];
    assert ([first] + rest)[1..] == rest;
    if Evaluate(first).Ok? {
      FoldSnoc(Minus, Evaluate(first).value, rest, c);
    }
  }

  /** The children's values over a concatenation. */
  lemma {:induction false} ValuesConcat(a: seq<Expression>, b: seq<Expression>)
    ensures Values(a + b).Some? <==> Values(a).Some? && Values(b).Some?
    ensures Values(a + b).Some? ==> Values(a + b).value == Values(a).value + Values(b).value
  {
    var ab := Values(a + b);
    if ab.Some? {
      forall i | 0 <= i < |a|
        ensures Evaluate(a[i]).Ok?
      {
        assert (a + b)[i] == a[i];
      }
      forall i | 0 <= i < |b|
        ensures Evaluate(b[i]).Ok?
      {
        assert (a + b)[i + |a|] == b[i];
      }
      var xs := Values(a).value + Values(b).value;
      assert |ab.value| == |xs|;
      forall i | 0 <= i < |xs|
        ensures ab.value[i] == xs[i]
      {
        if i < |a| {
          assert (a + b)[i] == a[i];
        } else {
          assert (a + b)[i] == b[i - |a|];
        }
      }
    } else {
      var i :| 0 <= i < |a + b| && Evaluate((a + b)[i]).Err?;
      if i < |a| {
        assert (a + b)[i] == a[i];
      } else {
        assert (a + b)[i] == b[i - |a|];
      }
    }
  }

  /** An Add over two child lists joined is the Add of the two Adds: nested
      sums flatten. */
  lemma {:induction false} AddConcat(a: seq<Expression>, b: seq<Expression>)
    ensures Evaluate(Add(a + b)) == Combine(Plus, Evaluate(Add(a)), Evaluate(Add(b)))
  {
    ValuesConcat(a, b);
    AddIsSum(a);
    AddIsSum(b);
    AddIsSum(a + b);
    if Values(a + b).Some? {
      SumConcat(Values(a).value, Values(b).value);
    }
  }

  /** Folding over two child lists joined is folding over the second from
      where the fold over the first stopped. */
  lemma {:induction false} FoldConcat(op: Op, total: real, a: seq<Expression>, b: seq<Expression>)
    ensures Fold(op, total, a + b)
         == (match Fold(op, total, a)
             case Err(err) => Err(err)
             case Ok(t) => Fold(op, t, b))
    decreases |a|
  {
    if |a| == 0 {
      assert a + b == b;
    } else {
      assert (a + b)[0] == a[0];
      assert (a + b)[1..] == a[1..] + b;
      if Evaluate(a[0]).Ok? {
        FoldConcat(op, Apply(op, total, Evaluate(a[0]).value), a[1..], b);
      }
    }
  }

  /** A product fold seeded with `t` is `t` times the fold seeded with 1. */
  lemma {:induction false} FoldScale(t: real, cs: seq<Expression>)
    ensures Fold(Times, t, cs) == Combine(Times, Ok(t), Fold(Times, 1.0, cs))
  {
    FoldIsTotal(Times, t, cs);
    FoldIsTotal(Times, 1.0, cs);
    if Values(cs).Some? {
      var r := Fold(Times, 1.0, cs);
      assert Combine(Times, Ok(t), r) == Ok(Apply(Times, t, r.value));
    }
  }

  /** A Multiply over two child lists joined is the Multiply of the two
      Multiplies: nested products flatten. */
  lemma {:induction false} MultiplyConcat(a: seq<Expression>, b: seq<Expression>)
    ensures Evaluate(Multiply(a + b)) == Combine(Times, Evaluate(Multiply(a)), Evaluate(Multiply(b)))
  {
    FoldConcat(Times, 1.0, a, b);
    if Fold(Times, 1.0, a).Ok? {
      FoldScale(Fold(Times, 1.0, a).value, b);
    }
  }

  /** The degenerate cases: a leaf is its own value, the empty Add and
      Multiply are the identities, the empty Subtract fails, and a Subtract
      of one child is that child's value. */
  lemma {:induction false} Identities(v: real, c: Expression)
    ensures Evaluate(Number(v)) == Ok(v)
    ensures Evaluate(Add([])) == Ok(0.0)
    ensures Evaluate(Multiply([])) == Ok(1.0)
    ensures Evaluate(Subtract([])) == Err(EmptySubtract)
    ensures Evaluate(Subtract([c])) == Evaluate(c)
  {
    assert [c][1..] == [];
  }
}
