# Arithmetic expression evaluator

A model of a small Rust arithmetic interpreter. An `Expression` is a tree
with three operator variants, `Add`, `Multiply` and `Subtract`, each owning an
ordered list of children, and a `Number` leaf. `evaluate` reduces a tree to a
number depth first:

- `Add` folds its children's values left to right with `+`, starting from 0.
- `Multiply` folds them with `*`, starting from 1.
- `Subtract` takes its first child's value as the seed and subtracts each
  later child's value in turn. With no children, `unwrap` on the missing
  first child panics.

Files and modules:

- `expression.dfy` (`Expressions`): the tree, and `WellFormed`. A tree is
  well formed when no `Subtract` node at any depth is empty.
- `evaluator.dfy` (`Evaluator`): `Evaluate`, and `Fold`, which is the
  iterator fold. The panic is the `Err(EmptySubtract)` outcome. Its contract
  says evaluation succeeds exactly on well-formed trees.
- `arithmetic.dfy` (`Arithmetic`): reference reductions over computed values.
  `Sum` and `Product` recurse on the last element. `Difference` is the first
  value minus the sum of the rest. They are written independently of the
  evaluator's folds.
- `laws.dfy` (`Laws`): how the evaluator relates to the reference reductions,
  and the fold equations for appending one child and for joining two child
  lists. `Values` lists the children's values left to right; it is `None`
  when any child fails.
- `examples.dfy` (`Examples`): the trees the program's `main` builds, and
  small trees for each operator.

The source's `f64` values are modelled as Dafny `real`. Every law is
therefore exact.

## Model

| member | source | states |
|---|---|---|
| Evaluator.Evaluate | src/main.rs:10-27 | evaluation succeeds if and only if no Subtract node at any depth has an empty child list; otherwise it fails with the panic of the missing first child |
| Evaluator.Fold | src/main.rs:12-24 | the iterator fold over a child list succeeds if and only if every child is well formed |
| Laws.FoldIsTotal | src/main.rs:12-24 | folding a step over the children equals the reference reduction of their values (seed plus sum, seed times product, seed minus sum); it fails exactly when some child's value is missing |
| Laws.AddIsSum | src/main.rs:12-15 | an Add evaluates to the sum of its children's values (0 for none) and fails when a child fails |
| Laws.MultiplyIsProduct | src/main.rs:16-19 | a Multiply evaluates to the product of its children's values (1 for none) and fails when a child fails |
| Laws.SubtractIsDifference | src/main.rs:20-24 | an empty Subtract fails; a non-empty one evaluates to the first child's value minus the sum of the other children's values, and fails when a child fails |
| Laws.FoldSnoc | src/main.rs:12-24 | appending a child to a fold applies one more step to the fold's outcome |
| Laws.AddSnoc | src/main.rs:12-15 | appending a child `c` to an Add adds the value of `c` |
| Laws.MultiplySnoc | src/main.rs:16-19 | appending a child `c` to a Multiply multiplies by the value of `c` |
| Laws.SubtractSnoc | src/main.rs:20-24 | appending a child `c` to a non-empty Subtract subtracts the value of `c` from the previous result, so subtraction associates to the left |
| Laws.ValuesConcat | src/main.rs:12-24 | the values of two joined child lists are the two value lists joined, and they exist exactly when both exist |
| Laws.FoldConcat | src/main.rs:12-24 | folding over two joined child lists continues the fold over the second list from where the first fold stopped |
| Laws.FoldScale | src/main.rs:16-19 | a product fold seeded with `t` equals `t` times the same fold seeded with 1 |
| Laws.AddConcat | src/main.rs:12-15 | an Add over two joined child lists equals the sum of the two Adds |
| Laws.MultiplyConcat | src/main.rs:16-19 | a Multiply over two joined child lists equals the product of the two Multiplies |
| Laws.Identities | src/main.rs:10-27 | a Number evaluates to itself; an empty Add gives 0 and an empty Multiply gives 1; an empty Subtract fails; a one-child Subtract gives that child's value unchanged |
| Examples.Twelve | src/main.rs:30-34 | the Add of 3, 4 and 5 built by `main` evaluates to 12 |
| Examples.Thirty | src/main.rs:35-36 | `Multiply([2.5, Add([3, 4, 5])])` evaluates to 30 |
| Examples.TwentySevenPointEight | src/main.rs:38-39 | subtracting 2.2 from that tree evaluates to 27.8 |
| Examples.SmallTrees | src/main.rs:12-24 | `Subtract([9, 2, 3])` is 4, not 10; `Subtract([4, 2])` is 2; sums and products of literals; an empty Subtract nested under an Add makes the whole tree fail |

## Left out

- IEEE-754 `f64` arithmetic is not modelled. Values are exact reals, so there is no rounding, NaN or infinity. As a result the entry point's second tree evaluates to exactly 27.8.
- The `println!` output of `main` (src/main.rs:37-39) is left out because it is I/O. The trees `main` builds are kept as examples.
- `#[derive(Clone, Debug)]` (src/main.rs:1-2) is left out. These trait implementations are generated by the compiler and add no evaluation behaviour.
- Stack exhaustion on very deep trees is not modelled. Recursion depth is unbounded here.
- The evaluator has no variables or environment: the enum has four variants and `evaluate` takes only the tree.
- The panic's message is not modelled. The model has one error value, so it does not say which empty Subtract in a tree caused the panic. In the code, the first one reached left to right, depth first, aborts evaluation.
