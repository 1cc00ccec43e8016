/** A rule of 256 symbols: the length that the driver keeps in a byte is 0, and a reduction by the rule pops nothing. */
module LongRuleExample {
  import opened Options
  import opened Grammars
  import opened Driver

  const TOKEN: nat := 1
  const START: nat := 2

  function LongGrammar(): Grammar
  {
    Grammar(2, 3, [Rule(START, seq(256, _ => TOKEN), 0, true, None)], START, [-1, -1, -1], [UNK, UNK, UNK])
  }

  lemma LongRulePopsNothing()
    ensures LongGrammar().Valid() && |LongGrammar().rules[0].rhs| == 256 && NRhs(LongGrammar(), 0) == 0
  {
    var g := LongGrammar();
    var rhs := g.rules[0].rhs;
    assert forall i | 0 <= i < |rhs| :: rhs[i] == TOKEN;
    assert g.ValidRule(g.rules[0]);
  }
}
