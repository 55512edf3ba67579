/**
 The rows a portal recipe is reviewed by (`flatten`): its steps in the order written, those inside a
 `for_each` after it and one deeper, numbered by one counter the recursion shares.
 */
module RecipeRows {

  /** Every kind but `for_each` holds no steps. */
  datatype Step = Plain(kind: string) | ForEach(steps: seq<Step>)

  datatype Row = Row(step: Step, depth: nat, number: nat)

  /** How many steps there are, those inside others among them. */
  function Total(steps: seq<Step>): nat {
    if steps == [] then 0
    else 1 + (if steps[0].ForEach? then Total(steps[0].steps) else 0) + Total(steps[1..])
  }

  /** The rows of steps numbered from `next`, said without a counter. */
  function Rows(steps: seq<Step>, depth: nat, next: nat): seq<Row> {
    if steps == [] then []
    else
      var inner := if steps[0].ForEach? then Rows(steps[0].steps, depth + 1, next + 1) else [];
      [Row(steps[0], depth, next)] + inner + Rows(steps[1..], depth, next + 1 + |inner|)
  }

  lemma RowsFrom(steps: seq<Step>, i: nat, depth: nat, next: nat)
    requires i < |steps|
    ensures var inner := if steps[i].ForEach? then Rows(steps[i].steps, depth + 1, next + 1) else [];
            Rows(steps[i..], depth, next) ==
            ([Row(steps[i], depth, next)] + inner) + Rows(steps[i + 1..], depth, next + 1 + |inner|)
  {
    assert steps[i..][0] == steps[i] && steps[i..][1..] == steps[i + 1..];
  }

  lemma Regroup<T>(a: seq<T>, b: seq<T>, c: seq<T>)
    ensures a + (b + c) == (a + b) + c
  {
  }

  class Counter {
    var next: nat

    constructor (next: nat)
      ensures this.next == next
    {
      this.next := next;
    }
  }

  /** `flatten`, its counter shared with every call inside it. */
  method Flatten(steps: seq<Step>, depth: nat, counter: Counter) returns (rows: seq<Row>)
    modifies counter
    decreases steps
    ensures rows == Rows(steps, depth, old(counter.next))
    ensures counter.next == old(counter.next) + |rows|
  {
    rows := [];
    ghost var start := counter.next;
    assert steps[0..] == steps;
    for i := 0 to |steps|
      invariant rows + Rows(steps[i..], depth, counter.next) == Rows(steps, depth, start)
      invariant counter.next == start + |rows|
    {
      ghost var (was, done) := (counter.next, rows);
      var row := Row(steps[i], depth, counter.next);
      counter.next := counter.next + 1;
      var inner := [];
      if steps[i].ForEach? {
        inner := Flatten(steps[i].steps, depth + 1, counter);
      }
      RowsFrom(steps, i, depth, was);
      Regroup(done, [row] + inner, Rows(steps[i + 1..], depth, counter.next));
      rows := rows + ([row] + inner);
    }
    assert steps[|steps|..] == [];
  }

  /** `flatten(steps)` as the page calls it. */
  method FlattenRecipe(steps: seq<Step>) returns (rows: seq<Row>)
    ensures rows == Rows(steps, 0, 1)
    ensures |rows| == Total(steps) && forall i :: 0 <= i < |rows| ==> rows[i].number == i + 1
  {
    var counter := new Counter(1);
    rows := Flatten(steps, 0, counter);
    Numbered(steps, 0, 1);
  }

  /** One row for each step, numbered one after the other: the number of a row is its place. */
  lemma {:induction false} Numbered(steps: seq<Step>, depth: nat, next: nat)
    ensures var rows := Rows(steps, depth, next);
            |rows| == Total(steps) && (forall i :: 0 <= i < |rows| ==> rows[i].number == next + i && rows[i].depth >= depth)
  {
    if steps != [] {
      if steps[0].ForEach? { Numbered(steps[0].steps, depth + 1, next + 1); }
      var inner := if steps[0].ForEach? then Rows(steps[0].steps, depth + 1, next + 1) else [];
      Numbered(steps[1..], depth, next + 1 + |inner|);
    }
  }

  // -------------------------------------------------------------------------
  // The nesting reads back from the rows
  // -------------------------------------------------------------------------

  /** What a reader sees of a row: its kind and how far it is indented. */
  datatype Label = Label(loops: bool, depth: nat)

  datatype Tree = Leaf | Loop(inside: seq<Tree>)

  datatype Parsed = Parsed(trees: seq<Tree>, rest: seq<Label>)

  function Labels(rows: seq<Row>): (labels: seq<Label>)
    ensures |labels| == |rows| && forall i :: 0 <= i < |rows| ==> labels[i] == Label(rows[i].step.ForEach?, rows[i].depth)
  {
    seq(|rows|, i requires 0 <= i < |rows| => Label(rows[i].step.ForEach?, rows[i].depth))
  }

  function Shape(steps: seq<Step>): seq<Tree> {
    if steps == [] then []
    else [if steps[0].ForEach? then Loop(Shape(steps[0].steps)) else Leaf] + Shape(steps[1..])
  }

  /** The steps at one depth, read until a row stands further out. */
  function Read(labels: seq<Label>, depth: nat): (p: Parsed)
    ensures |p.rest| <= |labels|
    decreases |labels|
  {
    if labels == [] || labels[0].depth != depth then Parsed([], labels)
    else if !labels[0].loops then
      var after := Read(labels[1..], depth);
      Parsed([Leaf] + after.trees, after.rest)
    else
      var inside := Read(labels[1..], depth + 1);
      var after := Read(inside.rest, depth);
      Parsed([Loop(inside.trees)] + after.trees, after.rest)
  }

  lemma {:induction false} ReadsBack(steps: seq<Step>, depth: nat, next: nat, tail: seq<Label>)
    requires tail == [] || tail[0].depth < depth
    ensures Read(Labels(Rows(steps, depth, next)) + tail, depth) == Parsed(Shape(steps), tail)
  {
    var labels := Labels(Rows(steps, depth, next)) + tail;
    if steps == [] {
      assert labels == tail;
    } else {
      var s := steps[0];
      var inner := if s.ForEach? then Rows(s.steps, depth + 1, next + 1) else [];
      var later := next + 1 + |inner|;
      LabelsSplit(Row(s, depth, next), inner, Rows(steps[1..], depth, later), tail);
      var rest := Labels(Rows(steps[1..], depth, later)) + tail;
      ReadsBack(steps[1..], depth, later, tail);
      if s.ForEach? {
        FirstOfRest(steps[1..], depth, later, tail);
        ReadsBack(s.steps, depth + 1, next + 1, rest);
        ReadLoop(labels, depth, Parsed(Shape(s.steps), rest), Parsed(Shape(steps[1..]), tail));
      } else {
        ReadLeaf(labels, depth, Parsed(Shape(steps[1..]), tail));
      }
    }
  }

  lemma ReadLeaf(labels: seq<Label>, depth: nat, after: Parsed)
    requires labels != [] && labels[0] == Label(false, depth) && Read(labels[1..], depth) == after
    ensures Read(labels, depth) == Parsed([Leaf] + after.trees, after.rest)
  {
  }

  lemma ReadLoop(labels: seq<Label>, depth: nat, inside: Parsed, after: Parsed)
    requires labels != [] && labels[0] == Label(true, depth)
    requires Read(labels[1..], depth + 1) == inside && Read(inside.rest, depth) == after
    ensures Read(labels, depth) == Parsed([Loop(inside.trees)] + after.trees, after.rest)
  {
  }

  lemma LabelsSplit(row: Row, inner: seq<Row>, others: seq<Row>, tail: seq<Label>)
    ensures var labels := Labels([row] + inner + others) + tail;
            labels != [] && labels[0] == Label(row.step.ForEach?, row.depth) &&
            labels[1..] == Labels(inner) + (Labels(others) + tail) &&
            (inner == [] ==> labels[1..] == Labels(others) + tail)
  {
    assert inner == [] ==> Labels(inner) == [];
  }

  /** What follows a step's own rows stands no deeper than it. */
  lemma FirstOfRest(steps: seq<Step>, depth: nat, next: nat, tail: seq<Label>)
    requires tail == [] || tail[0].depth < depth
    ensures var rest := Labels(Rows(steps, depth, next)) + tail; rest == [] || rest[0].depth <= depth
  {
  }

  /** The kinds and depths of the rows alone give back how the recipe's steps are nested. */
  lemma NestingReadsBack(steps: seq<Step>)
    ensures Read(Labels(Rows(steps, 0, 1)), 0) == Parsed(Shape(steps), [])
  {
    ReadsBack(steps, 0, 1, []);
    assert Labels(Rows(steps, 0, 1)) + [] == Labels(Rows(steps, 0, 1));
  }
}
