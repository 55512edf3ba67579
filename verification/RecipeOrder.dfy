/** What the rows of a recipe carry, besides their numbers: the steps whole, in order, and a loop's right behind it. */
module RecipeOrder {
  import opened RecipeRows

  /** The rows in front of the `i`th step's: those of the steps before it and of what is inside them. */
  function RowsBefore(steps: seq<Step>, i: nat): nat
    requires i <= |steps|
  {
    if i == 0 then 0
    else 1 + (if steps[0].ForEach? then Total(steps[0].steps) else 0) + RowsBefore(steps[1..], i - 1)
  }

  /** Every step has its own row, whole, at its own depth, behind those of the steps before it. */
  lemma {:induction false} StepHasItsRow(steps: seq<Step>, depth: nat, next: nat, i: nat)
    requires i < |steps|
    ensures RowAt(Rows(steps, depth, next), RowsBefore(steps, i), Row(steps[i], depth, next + RowsBefore(steps, i)))
  {
    var s := steps[0];
    var inner := if s.ForEach? then Rows(s.steps, depth + 1, next + 1) else [];
    if s.ForEach? { Numbered(s.steps, depth + 1, next + 1); }
    assert Rows(steps, depth, next) == [Row(s, depth, next)] + inner + Rows(steps[1..], depth, next + 1 + |inner|);
    if i > 0 {
      StepHasItsRow(steps[1..], depth, next + 1 + |inner|, i - 1);
      RowBehind([Row(s, depth, next)] + inner, Rows(steps[1..], depth, next + 1 + |inner|), RowsBefore(steps[1..], i - 1),
                Row(steps[i], depth, next + RowsBefore(steps, i)));
    }
  }

  /** This row stands at this place. */
  predicate RowAt(rows: seq<Row>, at: nat, row: Row) {
    at < |rows| && rows[at] == row
  }

  lemma RowBehind(before: seq<Row>, rows: seq<Row>, at: nat, row: Row)
    requires RowAt(rows, at, row)
    ensures RowAt(before + rows, |before| + at, row)
  {
  }

  /**
   Of any row: if it carries a `for_each`, the rows of its steps stand right behind it, one deeper and
   numbered on from it.
   */
  lemma {:induction false} InnerRowsFollow(steps: seq<Step>, depth: nat, next: nat, k: nat)
    requires k < |Rows(steps, depth, next)| && Rows(steps, depth, next)[k].step.ForEach?
    ensures InnerAt(Rows(steps, depth, next), k)
  {
    var s := steps[0];
    var row := Row(s, depth, next);
    var inner := if s.ForEach? then Rows(s.steps, depth + 1, next + 1) else [];
    var others := Rows(steps[1..], depth, next + 1 + |inner|);
    assert Rows(steps, depth, next) == [row] + inner + others;
    if k == 0 {
      InnerFirst(row, inner, others);
    } else if k <= |inner| {
      InLoop(row, inner, others, k);
      InnerRowsFollow(s.steps, depth + 1, next + 1, k - 1);
      InnerShifted([row], inner, others, k - 1);
    } else {
      Behind(row, inner, others, k);
      InnerRowsFollow(steps[1..], depth, next + 1 + |inner|, k - 1 - |inner|);
      InnerBehind([row] + inner, others, k - 1 - |inner|);
    }
  }

  lemma InLoop(row: Row, inner: seq<Row>, others: seq<Row>, k: nat)
    requires 0 < k <= |inner|
    ensures ([row] + inner + others)[k] == inner[k - 1]
  {
  }

  lemma Behind(row: Row, inner: seq<Row>, others: seq<Row>, k: nat)
    requires |inner| < k < 1 + |inner| + |others|
    ensures ([row] + inner + others)[k] == others[k - 1 - |inner|]
  {
  }

  lemma InnerBehind(before: seq<Row>, rows: seq<Row>, k: nat)
    requires InnerAt(rows, k)
    ensures InnerAt(before + rows, |before| + k)
  {
    var all := before + rows;
    assert all[|before| + k] == rows[k] && all[|before| + k + 1..] == rows[k + 1..];
  }

  /** The rows of the loop at this place stand right behind it. */
  predicate InnerAt(rows: seq<Row>, k: nat) {
    k < |rows| && rows[k].step.ForEach? &&
    Rows(rows[k].step.steps, rows[k].depth + 1, rows[k].number + 1) <= rows[k + 1..]
  }

  lemma InnerFirst(row: Row, inner: seq<Row>, others: seq<Row>)
    requires row.step.ForEach? && inner == Rows(row.step.steps, row.depth + 1, row.number + 1)
    ensures InnerAt([row] + inner + others, 0)
  {
    assert ([row] + inner + others)[1..] == inner + others;
  }

  lemma InnerShifted(before: seq<Row>, rows: seq<Row>, after: seq<Row>, k: nat)
    requires InnerAt(rows, k)
    ensures InnerAt(before + rows + after, |before| + k)
  {
    var all := before + rows + after;
    assert all[|before| + k] == rows[k] && all[|before| + k + 1..] == rows[k + 1..] + after;
  }
}
