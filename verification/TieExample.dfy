/** A grammar with a nonassociative operator: the shift is turned into an error, and the reduction that it met stays alive. */
module TieExample {
  import opened Options
  import opened Grammars
  import opened Actions
  import opened Conflicts
  import opened ConflictAssertions

  const OP: nat := 1
  const ID: nat := 2
  const START: nat := 3
  const EXPR: nat := 4

  function OperatorGrammar(): Grammar
  {
    Grammar(3, 5,
            [Rule(START, [EXPR], 0, true, None), Rule(EXPR, [EXPR, OP, EXPR], 1, true, Some(OP)), Rule(EXPR, [ID], 2, true, Some(ID))],
            START, [-1, 1, -1, -1, -1], [UNK, NONE, UNK, UNK, UNK])
  }

  /** After an operator expression, on the next operator: go on with it, or reduce. */
  function OnOperator(): seq<Action>
  {
    [Action(OP, SHIFT(0)), Action(OP, REDUCE(1))]
  }

  lemma OperatorsTie()
    ensures OperatorGrammar().Valid() && Grouped(OnOperator()) && Plain(OnOperator()) && TieAt(OperatorGrammar(), OnOperator(), 0, 1)
  {
  }

  lemma TieLeavesReduction(ap: seq<Action>)
    requires IsResolved(OperatorGrammar(), OnOperator(), ap)
    ensures |ap| == 2 && ap[0].kind == Kind.ERROR && ap[1] == Action(OP, REDUCE(1))
  {
    OperatorsTie();
    assert HasTie(OperatorGrammar(), OnOperator(), 0);
    OtherSurvives(OnOperator(), ap);
  }

  /** The same with a second rule that the operator ends. */
  function TwoRules(): Grammar
  {
    OperatorGrammar().(rules := OperatorGrammar().rules + [Rule(START, [EXPR, OP, EXPR], 3, true, Some(OP))])
  }

  /** A second reduction on the operator meets the ERROR that the shift has become: the assertion fails. */
  lemma SecondReductionFails()
    ensures TwoRules().Valid() && !RowsHold(TwoRules(), [Action(OP, SHIFT(0)), Action(OP, REDUCE(1)), Action(OP, REDUCE(3))], 0)
  {
    var g, a := TwoRules(), [Action(OP, SHIFT(0)), Action(OP, REDUCE(1)), Action(OP, REDUCE(3))];
    assert g.rules[1] == OperatorGrammar().rules[1] && g.rules[3].precsym == Some(OP);
    var p := ResolvePair(g, a[0], a[1]);
    var b := a[0 := p.0][1 := p.1];
    assert !AssertionHolds(g, b[0], b[2]);
    assert !MeetHolds(g, b, 0, 2);
    assert !MeetHolds(g, a, 0, 1);
  }

  lemma OtherSurvives(a: seq<Action>, ap: seq<Action>)
    requires |a| == 2 && a[0].sp == a[1].sp && Live(a[0]) && Demoted(a, ap) && Survivors(a, ap) && ap[0].kind == Kind.ERROR
    ensures ap[1] == a[1]
  {
    assert HasSurvivor(ap, a[0].sp);
    var l :| 0 <= l < |ap| && ap[l].sp == a[0].sp && Live(ap[l]);
  }
}
