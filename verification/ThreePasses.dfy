/**
 What the three passes make of the whole table.  The first two keep every accepting run as
 it is; the third drops reductions by code-free unit rules and nothing else.
 */
module ThreePasses {
  import opened Options
  import opened Grammars
  import opened Machine
  import opened Soundness
  import opened Optimized
  import opened Compress
  import opened ShortCuts

  /** The rules that pass three removes from runs. */
  ghost function UnitRules(g: Grammar): set<nat>
  {
    set r: nat | r < |g.rules| && |g.rules[r].rhs| == 1 && g.rules[r].noCode
  }

  /** What pass one found, state by state. */
  ghost predicate Passed1(g: Grammar, tab0: Table, bests: seq<Option<nat>>, auto: Autos)
  {
    && |bests| == |auto| == |tab0|
    && forall s: nat | s < |tab0| :: BestOK(g, tab0[s], bests[s]) && auto[s] == AutoFor(tab0[s], bests[s])
  }

  ghost predicate BestOK(g: Grammar, row: map<nat, Act>, best: Option<nat>)
  {
    best.Some? ==> best.value < |g.rules| && g.rules[best.value].lhs != g.start && exists a :: a in row && row[a] == Reduce(best.value)
  }

  /** A state that pass one made an auto-reduce state can do nothing else, and its rule is not empty. */
  lemma AutoIsOK(g: Grammar, m: Automaton, tab0: Table, bests: seq<Option<nat>>, auto: Autos, s: nat)
    requires PlainTable(g, m, tab0) && Passed1(g, tab0, bests, auto) && s < |tab0|
    ensures AutoRow(g, tab0[s], auto[s])
    ensures auto[s].Some? ==> g.rules[auto[s].value].rhs != [] && Reducible(g, m, s, auto[s].value)
  {
    assert BestOK(g, tab0[s], bests[s]);
    if auto[s].Some? {
      var r := auto[s].value;
      var a :| a in tab0[s] && tab0[s][a] == Reduce(r);
      OnlyReducing(g, m, tab0, s, r, a);
      assert PlainRow(g, m, tab0, s) && RowSound(g, m, tab0, s);
      assert EntrySound(g, m, s, a, tab0[s][a]);
      forall x | x in tab0[s] ensures tab0[s][x] == Reduce(r) { assert EntrySound(g, m, s, x, tab0[s][x]); }
    }
  }

  /** The rows of the table after the first two passes. */
  function Tab2(g: Grammar, tab0: Table, bests: seq<Option<nat>>, auto: Autos): Table
    requires |bests| == |tab0|
  {
    seq(|tab0|, s requires 0 <= s < |tab0| => Row2(auto, Row1(g, tab0[s], bests[s])))
  }

  lemma Tab2Entry(g: Grammar, m: Automaton, tab0: Table, bests: seq<Option<nat>>, auto: Autos, s: nat, x: nat)
    requires PlainTable(g, m, tab0) && Passed1(g, tab0, bests, auto) && s < |tab0| && x in tab0[s]
    ensures match tab0[s][x]
            case Shift(t) => x in Tab2(g, tab0, bests, auto)[s] && ShiftMatch(g, auto, t, Tab2(g, tab0, bests, auto)[s][x])
            case Reduce(r) => TokenAct(g, Tab2(g, tab0, bests, auto), St(s), x) == Reduce(r)
            case Accept => x in Tab2(g, tab0, bests, auto)[s] && Tab2(g, tab0, bests, auto)[s][x] == Accept
            case _ => false
  {
    assert PlainRow(g, m, tab0, s);
    if tab0[s][x].Shift? {
      var t := tab0[s][x].st;
      if t < |auto| { AutoIsOK(g, m, tab0, bests, auto, t); }
    }
  }

  lemma Tab2Default(g: Grammar, m: Automaton, tab0: Table, bests: seq<Option<nat>>, auto: Autos, s: nat)
    requires PlainTable(g, m, tab0) && Passed1(g, tab0, bests, auto) && s < |tab0|
    ensures forall x | x in Tab2(g, tab0, bests, auto)[s] && x != g.Default() :: x in tab0[s]
    ensures g.Default() in Tab2(g, tab0, bests, auto)[s] ==>
              exists x :: x in tab0[s] && tab0[s][x].Reduce? && tab0[s][x] == Tab2(g, tab0, bests, auto)[s][g.Default()] && tab0[s][x].rule < |g.rules| && g.rules[tab0[s][x].rule].lhs != g.start
  {
    assert PlainRow(g, m, tab0, s) && BestOK(g, tab0[s], bests[s]);
    if bests[s].Some? {
      var a :| a in tab0[s] && tab0[s][a] == Reduce(bests[s].value);
      assert Tab2(g, tab0, bests, auto)[s][g.Default()] == tab0[s][a];
    }
  }

  /** The first two passes drop nothing. */
  lemma TwoPassesOptimized(g: Grammar, m: Automaton, tab0: Table, bests: seq<Option<nat>>, auto: Autos)
    requires PlainTable(g, m, tab0) && Passed1(g, tab0, bests, auto)
    ensures IsOptimized(g, tab0, Tab2(g, tab0, bests, auto), auto, {})
  {
    var tab := Tab2(g, tab0, bests, auto);
    forall s: nat | s < |tab0| ensures RowOpt(g, tab0, tab, auto, {}, s) {
      assert PlainRow(g, m, tab0, s);
      AutoIsOK(g, m, tab0, bests, auto, s);
      Tab2Default(g, m, tab0, bests, auto, s);
      forall x | x in tab0[s] ensures EntryOpt(g, tab0, tab, auto, {}, s, x) {
        Tab2Entry(g, m, tab0, bests, auto, s, x);
      }
    }
  }

  /** After the first two passes the parser makes the same shifts and reductions in the same order. */
  lemma TwoPassesSameRun(g: Grammar, m: Automaton, tab0: Table, bests: seq<Option<nat>>, auto: Autos, w: seq<nat>, n: nat) returns (k: nat)
    requires PlainTable(g, m, tab0) && Passed1(g, tab0, bests, auto)
    requires (forall i | 0 <= i < |w| :: g.IsTerminal(w[i])) && Run(g, tab0, Init, w, n).Some?
    ensures k <= n && Run(g, Tab2(g, tab0, bests, auto), Init, w, k) == Run(g, tab0, Init, w, n)
  {
    TwoPassesOptimized(g, m, tab0, bests, auto);
    k := RunMatches(g, tab0, Tab2(g, tab0, bests, auto), auto, {}, Init, Init, w, n);
    KeepAll(g, Run(g, tab0, Init, w, n).value);
    KeepAll(g, Run(g, Tab2(g, tab0, bests, auto), Init, w, k).value);
  }

  /** Where a short cut on `x` comes from: a shift on `x` into a state that reduces `lhs ::= x`. */
  lemma CutRule(g: Grammar, m: Automaton, tab0: Table, bests: seq<Option<nat>>, auto: Autos, s: nat, x: nat) returns (r: nat)
    requires PlainTable(g, m, tab0) && Passed1(g, tab0, bests, auto) && s < |tab0|
    requires CutsAt(g, Tab2(g, tab0, bests, auto)[s], x)
    ensures r == Tab2(g, tab0, bests, auto)[s][x].rule && r in UnitRules(g) && g.rules[r].rhs == [x]
    ensures x in tab0[s] && tab0[s][x].Shift? && AutoOf(auto, tab0[s][x].st) == Some(r)
    ensures g.IsNonterminal(g.rules[r].lhs) && g.rules[r].lhs in tab0[s] && tab0[s][g.rules[r].lhs].Shift?
  {
    r := Tab2(g, tab0, bests, auto)[s][x].rule;
    assert PlainRow(g, m, tab0, s);
    var t := tab0[s][x].st;
    AutoIsOK(g, m, tab0, bests, auto, t);
    UnitOfGoto(g, m, tab0, s, x, r);
  }

  /** The short cuts of pass three always have somewhere to go. */
  lemma Tab2Stays(g: Grammar, m: Automaton, tab0: Table, bests: seq<Option<nat>>, auto: Autos, s: nat)
    requires PlainTable(g, m, tab0) && Passed1(g, tab0, bests, auto) && s < |tab0|
    ensures CutsStay(g, Tab2(g, tab0, bests, auto)[s])
  {
    var row := Tab2(g, tab0, bests, auto)[s];
    forall x: nat | CutsAt(g, row, x) ensures Target(g, row, x) in row && Target(g, row, x) >= g.nterminal {
      var r := CutRule(g, m, tab0, bests, auto, s, x);
      Tab2Entry(g, m, tab0, bests, auto, s, g.rules[r].lhs);
    }
  }

  /** No row has a cycle of short cuts. */
  ghost predicate AllAcyclic(g: Grammar, tab2: Table)
  {
    forall s: nat | s < |tab2| :: CutsStay(g, tab2[s]) && Acyclic(g, tab2[s])
  }

  /** The rows of the table after all three passes. */
  function Tab3(g: Grammar, tab2: Table): Table
    requires AllAcyclic(g, tab2)
  {
    seq(|tab2|, s requires 0 <= s < |tab2| => Row3(g, tab2[s]))
  }

  /** How far each goto of a state is from the end of its short cuts. */
  ghost function RankOf(g: Grammar, tab2: Table): (nat, nat) -> nat
  {
    (s: nat, x: nat) => if s < |tab2| then RankIn(g, tab2[s], x) else 0
  }

  lemma Tab2Ranked(g: Grammar, m: Automaton, tab0: Table, bests: seq<Option<nat>>, auto: Autos)
    requires PlainTable(g, m, tab0) && Passed1(g, tab0, bests, auto) && AllAcyclic(g, Tab2(g, tab0, bests, auto))
    ensures Ranked(g, tab0, auto, UnitRules(g), RankOf(g, Tab2(g, tab0, bests, auto)))
  {
    var tab2 := Tab2(g, tab0, bests, auto);
    forall s: nat, x: nat, r: nat | UnitGoto(g, tab0, auto, UnitRules(g), s, x, r)
      ensures RankOf(g, tab2)(s, g.rules[r].lhs) < RankOf(g, tab2)(s, x)
    {
      Tab2Entry(g, m, tab0, bests, auto, s, x);
      assert CutsAt(g, tab2[s], x) && Target(g, tab2[s], x) == g.rules[r].lhs;
      AcyclicRank(g, tab2[s]);
    }
  }

  /** All three passes: what is dropped is reductions by code-free unit rules. */
  lemma ThreePassesOptimized(g: Grammar, m: Automaton, tab0: Table, bests: seq<Option<nat>>, auto: Autos)
    requires PlainTable(g, m, tab0) && Passed1(g, tab0, bests, auto) && AllAcyclic(g, Tab2(g, tab0, bests, auto))
    ensures IsOptimized(g, tab0, Tab3(g, Tab2(g, tab0, bests, auto)), auto, UnitRules(g))
  {
    var tab := Tab3(g, Tab2(g, tab0, bests, auto));
    forall s: nat | s < |tab0| ensures RowOpt(g, tab0, tab, auto, UnitRules(g), s) {
      Row3Opt(g, m, tab0, bests, auto, s);
    }
  }

  lemma Row3Opt(g: Grammar, m: Automaton, tab0: Table, bests: seq<Option<nat>>, auto: Autos, s: nat)
    requires PlainTable(g, m, tab0) && Passed1(g, tab0, bests, auto) && s < |tab0| && AllAcyclic(g, Tab2(g, tab0, bests, auto))
    ensures RowOpt(g, tab0, Tab3(g, Tab2(g, tab0, bests, auto)), auto, UnitRules(g), s)
  {
    var tab := Tab3(g, Tab2(g, tab0, bests, auto));
    assert PlainRow(g, m, tab0, s);
    AutoIsOK(g, m, tab0, bests, auto, s);
    Tab2Default(g, m, tab0, bests, auto, s);
    forall x | x in tab0[s] ensures EntryOpt(g, tab0, tab, auto, UnitRules(g), s, x) {
      Row3Entry(g, m, tab0, bests, auto, s, x);
    }
  }

  lemma Row3Entry(g: Grammar, m: Automaton, tab0: Table, bests: seq<Option<nat>>, auto: Autos, s: nat, x: nat)
    requires PlainTable(g, m, tab0) && Passed1(g, tab0, bests, auto) && s < |tab0| && x in tab0[s] && AllAcyclic(g, Tab2(g, tab0, bests, auto))
    ensures EntryOpt(g, tab0, Tab3(g, Tab2(g, tab0, bests, auto)), auto, UnitRules(g), s, x)
  {
    var tab2 := Tab2(g, tab0, bests, auto);
    Tab2Entry(g, m, tab0, bests, auto, s, x);
    if CutsAt(g, tab2[s], x) {
      var r := CutRule(g, m, tab0, bests, auto, s, x);
      EndsStep(g, tab2[s], x);
      Tab2Entry(g, m, tab0, bests, auto, s, g.rules[r].lhs);
      assert g.ValidRule(g.rules[r]) && x == g.rules[r].rhs[0];
      assert ShortCut(g, tab0, Tab3(g, tab2), auto, UnitRules(g), s, x, tab0[s][x].st);
    }
  }
}
