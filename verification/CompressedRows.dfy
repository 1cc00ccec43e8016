/**
 What compression achieves, said of the rows before and after: the most frequent reduction
 of a state is its default and occurs nowhere else in the row, no shift goes to a state
 that only reduces, and no goto ends in a code-free unit rule.
 */
module CompressedRows {
  import opened Options
  import opened Grammars
  import opened Actions
  import opened Machine
  import opened Soundness
  import opened Lalr
  import opened Optimized
  import opened Compress
  import opened ShortCuts
  import opened ThreePasses

  /** On how many symbols the row reduces by rule `r`. */
  ghost function Times(row: map<nat, Act>, r: nat): nat
  {
    |set x | x in row && row[x] == Reduce(r)|
  }

  /** The state can do nothing but reduce by `r`, which is no start rule. */
  ghost predicate MustReduce(g: Grammar, row: map<nat, Act>, r: nat)
  {
    row.Keys != {} && (forall x | x in row :: row[x] == Reduce(r)) && r < |g.rules| && g.rules[r].lhs != g.start
  }

  /** The rule `r` has a default, and no rule that is not a start rule occurs more often. */
  ghost predicate DefaultIsBest(g: Grammar, row0: map<nat, Act>, row: map<nat, Act>)
  {
    forall q: nat | q < |g.rules| && g.rules[q].lhs != g.start && Times(row0, q) > 0 ::
      g.nsymbol in row && row[g.nsymbol].Reduce? && Times(row0, q) <= Times(row0, row[g.nsymbol].rule)
  }

  /** The default is not repeated. */
  ghost predicate DefaultIsAlone(g: Grammar, row: map<nat, Act>)
  {
    g.nsymbol in row ==> forall x | x in row && x != g.nsymbol :: row[x] != row[g.nsymbol]
  }

  /** No shift goes to a state that only reduces. */
  ghost predicate NoShiftToReduce(tab0: Table, g: Grammar, row: map<nat, Act>)
  {
    forall x | x in row && row[x].Shift? && row[x].st < |tab0| :: forall r: nat :: !MustReduce(g, tab0[row[x].st], r)
  }

  /** No goto ends in a unit rule without code. */
  ghost predicate NoUnitGoto(g: Grammar, row: map<nat, Act>)
  {
    forall x | x in row && g.nterminal <= x && row[x].ShiftReduce? && row[x].rule < |g.rules| :: !g.rules[row[x].rule].noCode || |g.rules[row[x].rule].rhs| != 1
  }

  ghost predicate IsSmall(g: Grammar, tab0: Table, row0: map<nat, Act>, row: map<nat, Act>)
  {
    DefaultIsBest(g, row0, row) && DefaultIsAlone(g, row) && NoShiftToReduce(tab0, g, row) && NoUnitGoto(g, row)
  }

  // ---------------------------------------------------------------------------
  // Counting
  // ---------------------------------------------------------------------------

  ghost function Places(ap: seq<Action>, r: nat, k: nat): set<nat>
    requires k <= |ap|
  {
    set i | k <= i < |ap| && ap[i].kind == REDUCE(r) :: ap[i].sp
  }

  /** The list counts what the row has. */
  lemma {:induction false} CountIsPlaces(ap: seq<Action>, r: nat, k: nat)
    requires UniqueEmit(ap) && k <= |ap|
    ensures CountFrom(ap, r, k) == |Places(ap, r, k)|
    decreases |ap| - k
  {
    if k < |ap| {
      CountIsPlaces(ap, r, k + 1);
      if ap[k].kind == REDUCE(r) {
        assert Emits(ap[k]) && forall i | k < i < |ap| && ap[i].kind == REDUCE(r) :: Emits(ap[i]);
        assert ap[k].sp !in Places(ap, r, k + 1);
        assert Places(ap, r, k) == Places(ap, r, k + 1) + {ap[k].sp};
      } else {
        assert Places(ap, r, k) == Places(ap, r, k + 1);
      }
    } else {
      assert Places(ap, r, k) == {};
    }
  }

  lemma CountIsTimes(ap: seq<Action>, row: map<nat, Act>, r: nat)
    requires Lists(ap, row)
    ensures CountFrom(ap, r, 0) == Times(row, r)
  {
    CountIsPlaces(ap, r, 0);
    var there := set x | x in row && row[x] == Reduce(r);
    forall x | x in there ensures x in Places(ap, r, 0) {
      assert HasAction(ap, x, row[x]);
      var i :| 0 <= i < |ap| && ap[i].sp == x && ActOf(ap[i].kind) == Some(row[x]);
      assert ap[i].kind == REDUCE(r);
    }
    forall x | x in Places(ap, r, 0) ensures x in there {
      var i :| 0 <= i < |ap| && ap[i].kind == REDUCE(r) && ap[i].sp == x;
      assert Emits(ap[i]);
    }
    assert there == Places(ap, r, 0);
  }

  // ---------------------------------------------------------------------------
  // The passes
  // ---------------------------------------------------------------------------

  /** A state is marked to auto-reduce exactly if it can do nothing else. */
  lemma AutoExactly(g: Grammar, m: Automaton, tab0: Table, bests: seq<Option<nat>>, auto: Autos, ap: seq<Action>, s: nat, r: nat)
    requires PlainTable(g, m, tab0) && Passed1(g, tab0, bests, auto) && s < |tab0| && Lists(ap, tab0[s]) && MostFrequent(g, ap, bests[s])
    ensures auto[s] == Some(r) <==> MustReduce(g, tab0[s], r)
  {
    AutoIsOK(g, m, tab0, bests, auto, s);
    assert BestOK(g, tab0[s], bests[s]);
    if MustReduce(g, tab0[s], r) {
      var x :| x in tab0[s];
      assert HasAction(ap, x, tab0[s][x]);
      var k :| 0 <= k < |ap| && ap[k].sp == x && ActOf(ap[k].kind) == Some(Reduce(r));
      assert ap[k].kind == REDUCE(r) && !IsStartRule(g, r);
      assert bests[s].Some?;
    }
  }

  lemma Row1IsSmall(g: Grammar, row: map<nat, Act>, ap: seq<Action>, best: Option<nat>)
    requires g.nsymbol !in row && Lists(ap, row) && MostFrequent(g, ap, best)
    ensures DefaultIsBest(g, row, Row1(g, row, best)) && DefaultIsAlone(g, Row1(g, row, best))
    ensures forall x | x in Row1(g, row, best) && x != g.nsymbol :: x in row && Row1(g, row, best)[x] == row[x]
    ensures g.nsymbol in Row1(g, row, best) ==> Row1(g, row, best)[g.nsymbol].Reduce?
  {
    forall q: nat | q < |g.rules| && g.rules[q].lhs != g.start && Times(row, q) > 0
      ensures best.Some? && Times(row, q) <= Times(row, best.value)
    {
      CountIsTimes(ap, row, q);
      if best.Some? {
        CountIsTimes(ap, row, best.value);
      } else if forall k | 0 <= k < |ap| :: ap[k].kind != REDUCE(q) {
        CountSplit(ap, q, 0, |ap|);
      }
    }
  }

  /** What a row keeps when shifts become shift-reduces. */
  lemma Row2IsSmall(g: Grammar, row0: map<nat, Act>, row1: map<nat, Act>, auto: Autos)
    requires DefaultIsBest(g, row0, row1) && DefaultIsAlone(g, row1) && (g.nsymbol in row1 ==> row1[g.nsymbol].Reduce?)
    ensures DefaultIsBest(g, row0, Row2(auto, row1)) && DefaultIsAlone(g, Row2(auto, row1))
    ensures forall x | x in Row2(auto, row1) && Row2(auto, row1)[x].Shift? :: AutoOf(auto, Row2(auto, row1)[x].st).None?
    ensures forall x | x in row1 && row1[x].Reduce? :: Row2(auto, row1)[x] == row1[x]
  {
  }

  lemma Row3IsSmall(g: Grammar, tab0: Table, row0: map<nat, Act>, row2: map<nat, Act>)
    requires CutsStay(g, row2) && Acyclic(g, row2) && (g.nsymbol in row2 ==> row2[g.nsymbol].Reduce?)
    requires (forall x | CutsAt(g, row2, x) :: Target(g, row2, x) != g.nsymbol)
    requires DefaultIsBest(g, row0, row2) && DefaultIsAlone(g, row2) && NoShiftToReduce(tab0, g, row2)
    ensures IsSmall(g, tab0, row0, Row3(g, row2))
  {
    var row := Row3(g, row2);
    if g.nsymbol in row2 { var d := EntryOfRow3(g, row2, g.nsymbol); }
    forall x | x in row ensures g.nterminal <= x ==> !Cuts(g, x, row[x]) { if g.nterminal <= x { FinalIsEnd(g, row2, x, x); } }
    forall x | x in row ensures exists y :: y in row2 && row[x] == row2[y] && (y == x || y != g.nsymbol) {
      var y := EntryOfRow3(g, row2, x);
    }
    forall x | x in row && x != g.nsymbol && g.nsymbol in row ensures row[x] != row[g.nsymbol] {
      var y := EntryOfRow3(g, row2, x);
      var z := EntryOfRow3(g, row2, g.nsymbol);
    }
  }

  lemma EntryOfRow3(g: Grammar, row2: map<nat, Act>, x: nat) returns (y: nat)
    requires CutsStay(g, row2) && Acyclic(g, row2) && x in row2 && (g.nsymbol in row2 ==> row2[g.nsymbol].Reduce?)
    requires (forall x | CutsAt(g, row2, x) :: Target(g, row2, x) != g.nsymbol)
    ensures y in row2 && Row3(g, row2)[x] == row2[y] && (x == g.nsymbol ==> y == x) && (x != g.nsymbol ==> y != g.nsymbol)
  {
    y := FinalIsTarget(g, row2, x);
  }

  lemma {:induction false} FinalIsTarget(g: Grammar, row: map<nat, Act>, x: nat) returns (y: nat)
    requires CutsStay(g, row) && x in row && CutsEnd(g, row, x) && (forall x | CutsAt(g, row, x) :: Target(g, row, x) != g.nsymbol)
    requires g.nsymbol in row ==> row[g.nsymbol].Reduce?
    ensures y in row && Final(g, row, x) == row[y] && (x == g.nsymbol ==> y == x) && (x != g.nsymbol ==> y != g.nsymbol)
    decreases LengthOf(g, row, x)
  {
    if CutsAt(g, row, x) {
      EndsStep(g, row, x);
      y := FinalIsTarget(g, row, Target(g, row, x));
    } else {
      y := x;
    }
  }

  /** The rows after the first two passes. */
  lemma TwoPassesAreSmall(g: Grammar, m: Automaton, acts: ActionLists, bests: seq<Option<nat>>, auto: Autos, s: nat)
    requires PlainTable(g, m, TableOf(acts)) && Passed1(g, TableOf(acts), bests, auto) && s < |acts|
    requires forall q: nat | q < |acts| :: UniqueEmit(acts[q]) && MostFrequent(g, acts[q], bests[q])
    ensures var row2 := Tab2(g, TableOf(acts), bests, auto)[s];
            && DefaultIsBest(g, TableOf(acts)[s], row2) && DefaultIsAlone(g, row2) && NoShiftToReduce(TableOf(acts), g, row2)
            && (g.nsymbol in row2 ==> row2[g.nsymbol].Reduce?)
  {
    var tab0 := TableOf(acts);
    assert PlainRow(g, m, tab0, s);
    ListsRow(acts[s]);
    Row1IsSmall(g, tab0[s], acts[s], bests[s]);
    var row1 := Row1(g, tab0[s], bests[s]);
    Row2IsSmall(g, tab0[s], row1, auto);
    var row2 := Row2(auto, row1);
    forall x, r: nat | x in row2 && row2[x].Shift? && row2[x].st < |tab0| ensures !MustReduce(g, tab0[row2[x].st], r) {
      var t := row2[x].st;
      ListsRow(acts[t]);
      AutoExactly(g, m, tab0, bests, auto, acts[t], t, r);
    }
  }

  /** All rows of the compressed table are small. */
  lemma CompressedIsSmall(g: Grammar, m: Automaton, acts: ActionLists, bests: seq<Option<nat>>, auto: Autos, s: nat)
    requires PlainTable(g, m, TableOf(acts)) && Passed1(g, TableOf(acts), bests, auto) && s < |acts| && AllAcyclic(g, Tab2(g, TableOf(acts), bests, auto))
    requires forall q: nat | q < |acts| :: UniqueEmit(acts[q]) && MostFrequent(g, acts[q], bests[q])
    ensures IsSmall(g, TableOf(acts), TableOf(acts)[s], Tab3(g, Tab2(g, TableOf(acts), bests, auto))[s])
  {
    TwoPassesAreSmall(g, m, acts, bests, auto, s);
    var row2 := Tab2(g, TableOf(acts), bests, auto)[s];
    forall x | CutsAt(g, row2, x) ensures Target(g, row2, x) != g.nsymbol { assert g.ValidRule(g.rules[row2[x].rule]); }
    assert CutsStay(g, row2) && Acyclic(g, row2);
    Row3IsSmall(g, TableOf(acts), TableOf(acts)[s], row2);
  }
}
