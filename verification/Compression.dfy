/**
 The whole of `CompressTables`: three passes over the actions of every state.  The plain
 table of the generator goes in; a sound table that accepts the same sentences, with
 the same reductions except code-free unit ones, comes out, unless the unit rules of a
 row form a cycle.
 */
module Compression {
  import opened Options
  import opened Grammars
  import opened Items
  import opened Actions
  import opened States
  import opened FollowSets
  import opened MergeSort
  import opened FindActions
  import opened Machine
  import opened Soundness
  import opened Completeness
  import opened Lalr
  import opened Optimized
  import opened Compress
  import opened ShortCuts
  import opened ThreePasses
  import opened CompressedRows

  /** Every basis of a finished table is the start basis or the result of a goto. */
  lemma BasesAreProper(g: Grammar, lam: seq<bool>, fst: seq<set<nat>>, states: seq<State>, s: nat)
    requires Finished(g, lam, fst, states) && s < |states|
    ensures ProperBasis(g, states[s].bp)
  {
    var bases := set b | b in Bases(states) && ProperBasis(g, b);
    BuiltTableIsLeast(g, lam, fst, states);
    forall b, x: nat | b in bases && Kernel(g, ClosureOf(g, b), x) != {} ensures Kernel(g, ClosureOf(g, b), x) in bases {
      KernelItems(g, ClosureOf(g, b), x);
    }
    assert GotoClosed(g, bases) && StartBasis(g) in bases;
    assert states[s].bp in Bases(states);
  }

  lemma PlainEntry(g: Grammar, lam: seq<bool>, fst: seq<set<nat>>, states: seq<State>, la: map<Item, set<nat>>, s: nat, ap: seq<Action>, x: nat)
    requires g.Valid() && Finished(g, lam, fst, states) && s < |states| && ActionsOK(g, states[s], la, s == 0, ap) && NoErrors(ap)
    requires x in RowOf(ap)
    ensures RowOf(ap)[x].Shift? || RowOf(ap)[x].Reduce? || RowOf(ap)[x].Accept?
    ensures RowOf(ap)[x].Shift? ==> AutomatonOf(states).Goes(s, x, RowOf(ap)[x].st)
  {
    var a := RowOfEntry(g, lam, fst, states, la, s, ap, x);
    RawLookahead(g, lam, fst, states, la, s, a);
    if a.kind.SHIFT? { ShiftEntrySound(g, lam, fst, states, s, a); }
  }

  lemma PlainRowOfState(g: Grammar, lam: seq<bool>, fst: seq<set<nat>>, states: seq<State>, la: Lookaheads, acts: ActionLists, s: nat)
    requires g.Valid() && Finished(g, lam, fst, states) && s < |states| && |acts| == |la| == |states|
    requires ActionsOK(g, states[s], la[s], s == 0, acts[s]) && NoErrors(acts[s]) && g.Default() !in RowOf(acts[s])
    ensures PlainRow(g, AutomatonOf(states), TableOf(acts), s)
  {
    BasesAreProper(g, lam, fst, states, s);
    var row := RowOf(acts[s]);
    forall x | x in row
      ensures row[x].Shift? || row[x].Reduce? || row[x].Accept?
      ensures row[x].Shift? ==> AutomatonOf(states).Goes(s, x, row[x].st)
    {
      PlainEntry(g, lam, fst, states, la[s], s, acts[s], x);
    }
    forall x | g.IsNonterminal(x) && x in GoOf(states[s].ap) ensures x in row && row[x].Shift? {
      GotoInRow(g, lam, fst, states, la[s], s, acts[s], x);
    }
  }

  /** What the generator hands to compression is a plain table. */
  lemma GeneratedIsPlain(g: Grammar, lam: seq<bool>, fst: seq<set<nat>>, states: seq<State>, fplp: Links, init: Sets, fws: Sets, acts: ActionLists)
    requires Generated(g, lam, fst, states, fplp, init, fws, acts)
    ensures PlainTable(g, AutomatonOf(states), TableOf(acts))
  {
    UncompressedSound(g, lam, fst, states, fplp, init, fws, acts);
    forall s: nat | s < |TableOf(acts)| ensures PlainRow(g, AutomatonOf(states), TableOf(acts), s) {
      UncompressedRowSound(g, lam, fst, states, fplp, init, fws, acts, s);
      PlainRowOfState(g, lam, fst, states, LaOf(states, fws), acts, s);
    }
  }

  // ---------------------------------------------------------------------------
  // The three passes
  // ---------------------------------------------------------------------------

  /** What compression needs of the action list of one state. */
  ghost predicate Compressible(g: Grammar, ap: seq<Action>)
  {
    UniqueEmit(ap) && |ap| < Pow2(LISTSIZE) && GotosEmit(g, ap) && TokenReduces(g, ap) && BySymbol(ap)
  }

  lemma BestIsOK(g: Grammar, m: Automaton, tab0: Table, s: nat, ap: seq<Action>, best: Option<nat>)
    requires TableSound(g, m, tab0) && s < |tab0| && Lists(ap, tab0[s]) && MostFrequent(g, ap, best)
    ensures BestOK(g, tab0[s], best)
  {
    if best.Some? {
      var r := best.value;
      if forall k | 0 <= k < |ap| :: ap[k].kind != REDUCE(r) {
        CountSplit(ap, r, 0, |ap|);
      } else {
        var k :| 0 <= k < |ap| && ap[k].kind == REDUCE(r);
        assert Emits(ap[k]) && RowSound(g, m, tab0, s) && EntrySound(g, m, s, ap[k].sp, tab0[s][ap[k].sp]);
      }
    }
  }

  /** State `s` has been through pass one. */
  ghost predicate Done1(g: Grammar, row: map<nat, Act>, ap: seq<Action>, best: Option<nat>, auto: Option<nat>)
  {
    BestOK(g, row, best) && auto == AutoFor(row, best) && Lists(ap, Row1(g, row, best)) && GotosEmit(g, ap) && BySymbol(ap)
  }

  /** Pass one over state `s`. */
  method DefaultOne(g: Grammar, acts: ActionLists, s: nat, ghost m: Automaton) returns (ap: seq<Action>, auto: Option<nat>, ghost best: Option<nat>)
    requires PlainTable(g, m, TableOf(acts)) && s < |acts| && Compressible(g, acts[s])
    ensures Done1(g, TableOf(acts)[s], ap, best, auto) && MostFrequent(g, acts[s], best)
  {
    assert PlainRow(g, m, TableOf(acts), s);
    ListsRow(acts[s]);
    ap, auto, best := DefaultReduce(g, acts[s], TableOf(acts)[s]);
    BestIsOK(g, m, TableOf(acts), s, acts[s], best);
  }

  /** Pass one over all states. */
  method DefaultPass(g: Grammar, acts: ActionLists, ghost m: Automaton) returns (acts': ActionLists, auto: Autos, ghost bests: seq<Option<nat>>)
    requires PlainTable(g, m, TableOf(acts)) && forall s | 0 <= s < |acts| :: Compressible(g, acts[s])
    ensures |acts'| == |acts| && Passed1(g, TableOf(acts), bests, auto)
    ensures forall s | 0 <= s < |acts| :: Done1(g, TableOf(acts)[s], acts'[s], bests[s], auto[s]) && MostFrequent(g, acts[s], bests[s])
  {
    acts', auto, bests := [], [], [];
    var i := 0;
    while i < |acts|
      invariant i <= |acts| && |acts'| == |auto| == |bests| == i
      invariant forall s | 0 <= s < i :: Done1(g, TableOf(acts)[s], acts'[s], bests[s], auto[s]) && MostFrequent(g, acts[s], bests[s])
    {
      var ap, a;
      ghost var best;
      ap, a, best := DefaultOne(g, acts, i, m);
      acts', auto, bests := acts' + [ap], auto + [a], bests + [best];
      i := i + 1;
    }
    assert forall s: nat | s < |TableOf(acts)| :: Done1(g, TableOf(acts)[s], acts'[s], bests[s], auto[s]);
  }

  /** The list is ready for pass two. */
  ghost predicate Done2(g: Grammar, auto: Autos, row1: map<nat, Act>, row2: map<nat, Act>, ap: seq<Action>)
  {
    Lists(ap, row1) && GotosEmit(g, ap) && BySymbol(ap) && row2 == Row2(auto, row1)
  }

  /** The list is ready for pass three. */
  ghost predicate Done3(g: Grammar, row2: map<nat, Act>, ap: seq<Action>)
  {
    Lists(ap, row2) && GotosEmit(g, ap) && BySymbol(ap)
  }

  /** Pass two over all states. */
  method ConvertPass(g: Grammar, acts: ActionLists, auto: Autos, ghost tab2: Table, ghost rows1: seq<map<nat, Act>>) returns (acts': ActionLists)
    requires |tab2| == |acts| == |rows1| && forall s | 0 <= s < |acts| :: Done2(g, auto, rows1[s], tab2[s], acts[s])
    ensures |acts'| == |acts| && forall s | 0 <= s < |acts| :: Done3(g, tab2[s], acts'[s])
  {
    acts' := [];
    var i := 0;
    while i < |acts|
      invariant i <= |acts| && |acts'| == i && forall s | 0 <= s < i :: Done3(g, tab2[s], acts'[s])
    {
      assert Done2(g, auto, rows1[i], tab2[i], acts[i]);
      var ap := ShiftReducePass(auto, acts[i], rows1[i]);
      assert Done3(g, tab2[i], ap);
      acts' := acts' + [ap];
      i := i + 1;
    }
  }

  /** What pass three makes of all states: new lists, or the first state that it does not get through. */
  datatype Shortening = Lists3(acts: ActionLists) | StopsAt(s: nat, out: Passage)

  /** The pass is stuck in the first state with a cycle. */
  ghost predicate StopsIn(g: Grammar, tab2: Table, acts2: ActionLists, s: nat, out: Passage)
  {
    && s < |tab2| == |acts2| && !out.Shortened? && IsPassage(g, acts2[s], out)
    && !Acyclic(g, tab2[s]) && forall q: nat | q < s :: Acyclic(g, tab2[q])
  }

  /** Pass three over all states. */
  method ShortenPass(g: Grammar, acts: ActionLists, ghost tab2: Table) returns (sh: Shortening)
    requires |tab2| == |acts| && forall s | 0 <= s < |acts| :: CutsStay(g, tab2[s]) && Done3(g, tab2[s], acts[s])
    ensures sh.Lists3? <==> AllAcyclic(g, tab2)
    ensures sh.Lists3? ==> |sh.acts| == |acts| && forall s | 0 <= s < |acts| :: Lists(sh.acts[s], Row3(g, tab2[s]))
    ensures sh.StopsAt? ==> StopsIn(g, tab2, acts, sh.s, sh.out)
  {
    var acts' := [];
    var i := 0;
    while i < |acts|
      invariant i <= |acts| && |acts'| == i
      invariant forall s | 0 <= s < i :: Acyclic(g, tab2[s]) && Lists(acts'[s], Row3(g, tab2[s]))
    {
      assert CutsStay(g, tab2[i]) && Done3(g, tab2[i], acts[i]);
      var out := ShortCutPass(g, acts[i], tab2[i]);
      if !out.Shortened? { return StopsAt(i, out); }
      acts' := acts' + [out.ap];
      i := i + 1;
    }
    return Lists3(acts');
  }

  /** What the first pass found in the lists, and what the first two made of them. */
  ghost predicate TwoPassed(g: Grammar, acts: ActionLists, bests: seq<Option<nat>>, auto: Autos, acts2: ActionLists)
  {
    && Passed1(g, TableOf(acts), bests, auto) && |acts2| == |acts|
    && forall s: nat | s < |acts| :: MostFrequent(g, acts[s], bests[s]) && Done3(g, Tab2(g, TableOf(acts), bests, auto)[s], acts2[s])
  }

  /** The first two passes over all states. */
  method TwoPassesOver(g: Grammar, acts: ActionLists, ghost m: Automaton) returns (acts2: ActionLists, auto: Autos, ghost bests: seq<Option<nat>>)
    requires PlainTable(g, m, TableOf(acts)) && forall s | 0 <= s < |acts| :: Compressible(g, acts[s])
    ensures TwoPassed(g, acts, bests, auto, acts2)
  {
    var acts1;
    acts1, auto, bests := DefaultPass(g, acts, m);
    ghost var tab0 := TableOf(acts);
    ghost var tab2 := Tab2(g, tab0, bests, auto);
    ghost var rows1 := seq(|acts|, s requires 0 <= s < |acts| => Row1(g, tab0[s], bests[s]));
    assert forall s | 0 <= s < |acts| :: Done1(g, tab0[s], acts1[s], bests[s], auto[s]);
    assert forall s | 0 <= s < |acts| :: Done2(g, auto, rows1[s], tab2[s], acts1[s]);
    acts2 := ConvertPass(g, acts1, auto, tab2, rows1);
  }

  /**
   Compress the action lists of all states.  The third pass gets through exactly if no row
   has a cycle of code-free unit rules; then every accepting run is kept.
   */
  method CompressTables(g: Grammar, acts: ActionLists, ghost m: Automaton)
      returns (sh: Shortening, auto: Autos, ghost bests: seq<Option<nat>>, ghost acts2: ActionLists)
    requires PlainTable(g, m, TableOf(acts)) && forall s | 0 <= s < |acts| :: Compressible(g, acts[s])
    ensures TwoPassed(g, acts, bests, auto, acts2)
    ensures sh.Lists3? <==> AllAcyclic(g, Tab2(g, TableOf(acts), bests, auto))
    ensures sh.StopsAt? ==> StopsIn(g, Tab2(g, TableOf(acts), bests, auto), acts2, sh.s, sh.out)
    ensures sh.Lists3? ==> |sh.acts| == |acts| && forall s | 0 <= s < |acts| :: UniqueEmit(sh.acts[s])
    ensures sh.Lists3? ==> TableOf(sh.acts) == Tab3(g, Tab2(g, TableOf(acts), bests, auto))
    ensures sh.Lists3? ==> IsOptimized(g, TableOf(acts), TableOf(sh.acts), auto, UnitRules(g)) && KeepsRuns(g, TableOf(acts), TableOf(sh.acts), UnitRules(g))
    ensures sh.Lists3? ==> forall s: nat | s < |acts| :: IsSmall(g, TableOf(acts), TableOf(acts)[s], TableOf(sh.acts)[s])
    ensures forall s: nat, r: nat | s < |acts| :: auto[s] == Some(r) <==> MustReduce(g, TableOf(acts)[s], r)
  {
    var lists;
    lists, auto, bests := TwoPassesOver(g, acts, m);
    acts2 := lists;
    ghost var tab2 := Tab2(g, TableOf(acts), bests, auto);
    forall s: nat | s < |acts| ensures CutsStay(g, tab2[s]) && Done3(g, tab2[s], lists[s]) { Tab2Stays(g, m, TableOf(acts), bests, auto, s); }
    sh := ShortenPass(g, lists, tab2);
    if sh.Lists3? {
      ShortenedTable(g, acts, m, bests, auto, sh.acts);
      forall s: nat | s < |acts| ensures IsSmall(g, TableOf(acts), TableOf(acts)[s], TableOf(sh.acts)[s]) {
        CompressedIsSmall(g, m, acts, bests, auto, s);
      }
    }
    forall s: nat, r: nat | s < |acts| ensures auto[s] == Some(r) <==> MustReduce(g, TableOf(acts)[s], r) {
      ListsRow(acts[s]);
      AutoExactly(g, m, TableOf(acts), bests, auto, acts[s], s, r);
    }
  }

  lemma ShortenedTable(g: Grammar, acts: ActionLists, m: Automaton, bests: seq<Option<nat>>, auto: Autos, acts': ActionLists)
    requires PlainTable(g, m, TableOf(acts)) && Passed1(g, TableOf(acts), bests, auto) && AllAcyclic(g, Tab2(g, TableOf(acts), bests, auto))
    requires |acts'| == |acts| && forall s | 0 <= s < |acts| :: Lists(acts'[s], Row3(g, Tab2(g, TableOf(acts), bests, auto)[s]))
    ensures TableOf(acts') == Tab3(g, Tab2(g, TableOf(acts), bests, auto))
    ensures IsOptimized(g, TableOf(acts), TableOf(acts'), auto, UnitRules(g)) && KeepsRuns(g, TableOf(acts), TableOf(acts'), UnitRules(g))
  {
    TableIs(acts', Tab3(g, Tab2(g, TableOf(acts), bests, auto)));
    ThreePassesOptimized(g, m, TableOf(acts), bests, auto);
    OptimizedKeepsRuns(g, TableOf(acts), TableOf(acts'), auto, UnitRules(g));
  }

  lemma TableIs(acts: ActionLists, tab: Table)
    requires |acts| == |tab| && forall s | 0 <= s < |acts| :: Lists(acts[s], tab[s])
    ensures TableOf(acts) == tab
  {
    forall s | 0 <= s < |acts| ensures RowOf(acts[s]) == tab[s] { RowIs(acts[s], tab[s]); }
  }
}
