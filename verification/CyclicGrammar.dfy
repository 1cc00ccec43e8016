/**
 A grammar with a cycle of code-free unit rules, and its automaton: the state at the start,
 and one state for each symbol that can come first.
 */
module CyclicGrammar {
  import opened FiniteSets
  import opened Options
  import opened Grammars
  import opened FirstSets
  import opened Items
  import opened Configlist
  import opened States
  import opened FollowSets
  import opened Soundness
  import opened Completeness
  import opened Lalr

  const TOKEN: nat := 1
  const LOW: nat := 2
  const HIGH: nat := 3
  const START: nat := 4

  /** The numbers of the three other nonterminals, in any order. */
  predicate Numbered(a: nat, b: nat, d: nat)
  {
    5 <= a <= 7 && 5 <= b <= 7 && 5 <= d <= 7 && a != b && a != d && b != d
  }

  /** `a` is `b` or `d`, `b` is `a`, and `d` is a token.  Precedence makes `b ::= a` win over the start rule. */
  function Cyclic(a: nat, b: nat, d: nat): Grammar
  {
    Grammar(4, 8,
            [Rule(b, [a], 0, true, Some(HIGH)), Rule(a, [b], 1, true, None), Rule(a, [d], 2, true, None),
             Rule(START, [a], 3, true, Some(LOW)), Rule(d, [TOKEN], 4, true, None)],
            START, [-1, -1, 1, 2, -1, -1, -1, -1], [UNK, UNK, LEFT, LEFT, UNK, UNK, UNK, UNK])
  }

  lemma CyclicIsValid(a: nat, b: nat, d: nat)
    requires Numbered(a, b, d)
    ensures Cyclic(a, b, d).Valid()
  {
  }

  /** The symbol on the right-hand side of a rule. */
  function Only(a: nat, b: nat, d: nat, r: nat): nat
    requires r < 5
  {
    [a, b, d, a, TOKEN][r]
  }

  /** Every rule has one symbol on the right-hand side. */
  lemma RulesAreUnit(a: nat, b: nat, d: nat, it: Item, x: nat)
    ensures ValidItem(Cyclic(a, b, d), it) ==> it.rule < 5 && it.dot <= 1
    ensures HasNext(Cyclic(a, b, d), it, x) <==> it.rule < 5 && it.dot == 0 && x == Only(a, b, d, it.rule)
    ensures HasNext(Cyclic(a, b, d), it, x) ==> Rest(Cyclic(a, b, d), it) == []
  {
  }

  /** The configurations of the first state. */
  ghost function Initial(): set<Item>
  {
    {Item(0, 0), Item(1, 0), Item(2, 0), Item(3, 0), Item(4, 0)}
  }

  lemma StartIs(a: nat, b: nat, d: nat)
    requires Numbered(a, b, d)
    ensures StartBasis(Cyclic(a, b, d)) == {Item(3, 0)}
  {
  }

  lemma InitialIsClosure(a: nat, b: nat, d: nat)
    requires Numbered(a, b, d)
    ensures ClosureOf(Cyclic(a, b, d), {Item(3, 0)}) == Initial()
  {
    var g := Cyclic(a, b, d);
    var c := ClosureOf(g, {Item(3, 0)});
    ClosureOfIsClosure(g, {Item(3, 0)});
    assert Calls(g, Item(3, 0), 1) && Calls(g, Item(3, 0), 2) && Calls(g, Item(1, 0), 0) && Calls(g, Item(2, 0), 4);
    forall it | it in c ensures it in Initial() {
      ClosureOrigin(g, {Item(3, 0)}, it);
      RulesAreUnit(a, b, d, it, 0);
      assert it == Item(it.rule, 0);
    }
  }

  /** The basis of the state that is entered on `x`. */
  ghost function BasisOn(a: nat, b: nat, d: nat, x: nat): set<Item>
  {
    set r: nat | r < 5 && Only(a, b, d, r) == x :: Item(r, 1)
  }

  lemma KernelIn(a: nat, b: nat, d: nat, x: nat, it: Item)
    requires HasNext(Cyclic(a, b, d), it, x)
    ensures Advance(it) in BasisOn(a, b, d, x)
  {
    RulesAreUnit(a, b, d, it, x);
    assert Advance(it) == Item(it.rule, 1);
  }

  lemma KernelHas(a: nat, b: nat, d: nat, x: nat, k: Item) returns (it: Item)
    requires k in BasisOn(a, b, d, x)
    ensures it in Initial() && HasNext(Cyclic(a, b, d), it, x) && Advance(it) == k
  {
    it := Item(k.rule, 0);
    RulesAreUnit(a, b, d, it, x);
  }

  lemma KernelIs(a: nat, b: nat, d: nat, x: nat)
    ensures Kernel(Cyclic(a, b, d), Initial(), x) == BasisOn(a, b, d, x)
  {
    var g := Cyclic(a, b, d);
    KernelItems(g, Initial(), x);
    forall it | it in Initial() && HasNext(g, it, x) ensures Advance(it) in BasisOn(a, b, d, x) { KernelIn(a, b, d, x, it); }
    forall k | k in BasisOn(a, b, d, x) ensures k in Kernel(g, Initial(), x) { var it := KernelHas(a, b, d, x, k); }
  }

  /** A basis of finished configurations is its own closure, and nothing comes after it. */
  lemma FinishedBasis(a: nat, b: nat, d: nat, x: nat, y: nat)
    ensures ClosureOf(Cyclic(a, b, d), BasisOn(a, b, d, x)) == BasisOn(a, b, d, x)
    ensures Kernel(Cyclic(a, b, d), BasisOn(a, b, d, x), y) == {}
  {
    var g, c := Cyclic(a, b, d), BasisOn(a, b, d, x);
    assert ItemSet(g, c);
    assert Closed(g, c);
    ClosureOfIsClosure(g, c);
    KernelItems(g, c, y);
  }

  /** The bases of all states. */
  ghost function AllBases(a: nat, b: nat, d: nat): set<set<Item>>
  {
    {{Item(3, 0)}, BasisOn(a, b, d, a), BasisOn(a, b, d, b), BasisOn(a, b, d, d), BasisOn(a, b, d, TOKEN)}
  }

  lemma OnlyThese(a: nat, b: nat, d: nat, x: nat)
    requires Numbered(a, b, d)
    ensures BasisOn(a, b, d, x) != {} <==> x in {a, b, d, TOKEN}
  {
    assert Item(0, 1) in BasisOn(a, b, d, a) && Item(1, 1) in BasisOn(a, b, d, b) && Item(2, 1) in BasisOn(a, b, d, d) && Item(4, 1) in BasisOn(a, b, d, TOKEN);
    if it :| it in BasisOn(a, b, d, x) { }
  }

  lemma BasesAreClosed(a: nat, b: nat, d: nat)
    requires Numbered(a, b, d)
    ensures GotoClosed(Cyclic(a, b, d), AllBases(a, b, d))
  {
    var g := Cyclic(a, b, d);
    forall basis, x: nat | basis in AllBases(a, b, d) && Kernel(g, ClosureOf(g, basis), x) != {}
      ensures Kernel(g, ClosureOf(g, basis), x) in AllBases(a, b, d)
    {
      if basis == {Item(3, 0)} {
        InitialIsClosure(a, b, d);
        KernelIs(a, b, d, x);
        OnlyThese(a, b, d, x);
      } else {
        var y :| y in {a, b, d, TOKEN} && basis == BasisOn(a, b, d, y);
        FinishedBasis(a, b, d, y, x);
      }
    }
  }

  /** Every state is the first one, or has been entered on a symbol. */
  lemma StatesAre(a: nat, b: nat, d: nat, lam: seq<bool>, fst: seq<set<nat>>, states: seq<State>, s: nat)
    requires Numbered(a, b, d) && Finished(Cyclic(a, b, d), lam, fst, states) && s < |states|
    ensures states[0].bp == {Item(3, 0)} && states[s].bp in AllBases(a, b, d)
  {
    StartIs(a, b, d);
    BasesAreClosed(a, b, d);
    BuiltTableIsLeast(Cyclic(a, b, d), lam, fst, states);
    assert states[s].bp in Bases(states);
  }

  lemma FewStates(a: nat, b: nat, d: nat, lam: seq<bool>, fst: seq<set<nat>>, states: seq<State>)
    requires Numbered(a, b, d) && Finished(Cyclic(a, b, d), lam, fst, states)
    ensures |states| <= 5
  {
    var bases := seq(|states|, s requires 0 <= s < |states| => states[s].bp);
    forall s | 0 <= s < |bases| ensures bases[s] in AllBases(a, b, d) { StatesAre(a, b, d, lam, fst, states, s); }
    Pigeonhole(bases, AllBases(a, b, d));
  }

  /** The state that is entered on `x`. */
  ghost predicate EnteredOn(a: nat, b: nat, d: nat, states: seq<State>, x: nat, t: nat)
  {
    t < |states| && AutomatonOf(states).Goes(0, x, t) && states[t].bp == BasisOn(a, b, d, x)
  }

  /** The first state has gotos on exactly four symbols. */
  lemma GotosAre(a: nat, b: nat, d: nat, lam: seq<bool>, fst: seq<set<nat>>, states: seq<State>, x: nat)
    requires Numbered(a, b, d) && Finished(Cyclic(a, b, d), lam, fst, states)
    ensures x in GoOf(states[0].ap) <==> x in {a, b, d, TOKEN}
    ensures x in GoOf(states[0].ap) ==> EnteredOn(a, b, d, states, x, GoOf(states[0].ap)[x])
  {
    var g, m := Cyclic(a, b, d), AutomatonOf(states);
    CyclicIsValid(a, b, d);
    AutomatonIsOK(g, lam, fst, states);
    StatesAre(a, b, d, lam, fst, states, 0);
    InitialIsClosure(a, b, d);
    assert StateGoOK(g, m, 0) && m.Cl(g, 0) == Initial();
    KernelIs(a, b, d, x);
    OnlyThese(a, b, d, x);
  }

  // ---------------------------------------------------------------------------
  // Lookaheads
  // ---------------------------------------------------------------------------

  /** Every rule has one symbol on its right-hand side. */
  predicate AllUnit(g: Grammar)
  {
    forall r | 0 <= r < |g.rules| :: |g.rules[r].rhs| == 1
  }

  lemma NothingAfter(g: Grammar, lam: seq<bool>, fst: seq<set<nat>>, it: Item, x: nat, t: nat)
    requires AllUnit(g) && HasNext(g, it, x)
    ensures Rest(g, it) == [] && !InFirst(g, lam, fst, Rest(g, it), t)
  {
  }

  /** The sets start with `$` or nothing: no symbol comes after another. */
  lemma UnitSeeds(g: Grammar, lam: seq<bool>, fst: seq<set<nat>>, states: seq<State>, c: Config, t: nat)
    requires AllUnit(g) && Finished(g, lam, fst, states) && IsConfig(states, c) && c.item in states[c.st].fws && t in states[c.st].fws[c.item]
    ensures t == 0
  {
    var st := states[c.st];
    assert EntryOK(g, lam, fst, states, c.st);
    forall it | it in ItemsOf(st.cfp) && Calls(g, it, c.item.rule) ensures !InFirst(g, lam, fst, Rest(g, it), t) {
      NothingAfter(g, lam, fst, it, g.rules[c.item.rule].lhs, t);
    }
    assert Seeded(g, lam, fst, ItemsOf(st.cfp), SeedOf(c.st == 0, st.bp), c.item, t);
  }

  /** Nothing but `$` ever follows. */
  lemma OnlyEnd(g: Grammar, lam: seq<bool>, fst: seq<set<nat>>, states: seq<State>, fplp: Links, init: Sets, fws: Sets, s: nat, it: Item)
    requires AllUnit(g) && Finished(g, lam, fst, states) && Followed(g, states, fplp, init, fws) && s < |states| && it in LaOf(states, fws)[s]
    ensures LaOf(states, fws)[s][it] <= {0}
  {
    var c := Config(s, it);
    forall t | t in LaOf(states, fws)[s][it] ensures t == 0 {
      assert Arrives(fplp, init, c, t);
      var e :| e in init && t in init[e] && Reaches(fplp, e, c);
      UnitSeeds(g, lam, fst, states, e, t);
    }
  }

  /** `$` goes on to what a configuration calls. */
  lemma EndPassesOn(g: Grammar, lam: seq<bool>, fst: seq<set<nat>>, m: Automaton, la: Lookaheads, it: Item, r: nat)
    requires AllUnit(g) && RowClosed(g, lam, fst, m, la, 0) && it in la[0] && 0 in la[0][it] && Calls(g, it, r)
    ensures Item(r, 0) in la[0] && 0 in la[0][Item(r, 0)]
  {
    NothingAfter(g, lam, fst, it, g.rules[r].lhs, 0);
    assert PassesOn(g, lam, it, r);
  }

  /** If `$` follows the start rule, it follows every configuration of the first state. */
  lemma EndFollowsInitial(a: nat, b: nat, d: nat, lam: seq<bool>, fst: seq<set<nat>>, m: Automaton, la: Lookaheads, r: nat)
    requires Numbered(a, b, d) && RowClosed(Cyclic(a, b, d), lam, fst, m, la, 0) && r < 5
    requires Item(3, 0) in la[0] && 0 in la[0][Item(3, 0)]
    ensures Item(r, 0) in la[0] && 0 in la[0][Item(r, 0)]
    decreases if r == 3 then 0 else if r == 1 || r == 2 then 1 else 2
  {
    if r != 3 {
      var caller := [1, 3, 3, 3, 2][r];
      EndFollowsInitial(a, b, d, lam, fst, m, la, caller);
      EndPassesOn(Cyclic(a, b, d), lam, fst, m, la, Item(caller, 0), r);
    }
  }

  /** `$` goes on into the states that follow. */
  lemma EndIsShifted(g: Grammar, lam: seq<bool>, fst: seq<set<nat>>, m: Automaton, la: Lookaheads, r: nat, x: nat, t: nat)
    requires RowClosed(g, lam, fst, m, la, 0) && Item(r, 0) in la[0] && 0 in la[0][Item(r, 0)] && HasNext(g, Item(r, 0), x) && m.Goes(0, x, t)
    ensures t < |la| && Item(r, 1) in la[t] && 0 in la[t][Item(r, 1)]
  {
    assert Advance(Item(r, 0)) == Item(r, 1);
  }

  lemma EndArrives(a: nat, b: nat, d: nat, lam: seq<bool>, fst: seq<set<nat>>, m: Automaton, la: Lookaheads, r: nat, x: nat, t: nat)
    requires Numbered(a, b, d) && RowClosed(Cyclic(a, b, d), lam, fst, m, la, 0) && Item(3, 0) in la[0] && 0 in la[0][Item(3, 0)]
    requires r < 5 && Only(a, b, d, r) == x && m.Goes(0, x, t)
    ensures t < |la| && Item(r, 1) in la[t] && 0 in la[t][Item(r, 1)]
  {
    EndFollowsInitial(a, b, d, lam, fst, m, la, r);
    RulesAreUnit(a, b, d, Item(r, 0), x);
    EndIsShifted(Cyclic(a, b, d), lam, fst, m, la, r, x, t);
  }

  lemma FirstRow(g: Grammar, lam: seq<bool>, fst: seq<set<nat>>, states: seq<State>, fplp: Links, init: Sets, fws: Sets, it: Item)
    requires g.Valid() && Finished(g, lam, fst, states) && Followed(g, states, fplp, init, fws) && it in StartBasis(g)
    ensures RowClosed(g, lam, fst, AutomatonOf(states), LaOf(states, fws), 0)
    ensures it in LaOf(states, fws)[0] && 0 in LaOf(states, fws)[0][it]
  {
    assert RowClosed(g, lam, fst, AutomatonOf(states), LaOf(states, fws), 0) by { LookaheadsAreClosed(g, lam, fst, states, fplp, init, fws, 0); }
    assert it in LaOf(states, fws)[0] && 0 in LaOf(states, fws)[0][it] by { StartSeeded(g, lam, fst, states, fplp, init, fws, it); }
  }

  lemma OnlyEnds(g: Grammar, lam: seq<bool>, fst: seq<set<nat>>, states: seq<State>, fplp: Links, init: Sets, fws: Sets, s: nat)
    requires AllUnit(g) && Finished(g, lam, fst, states) && Followed(g, states, fplp, init, fws) && s < |states|
    ensures forall it | it in LaOf(states, fws)[s] :: LaOf(states, fws)[s][it] <= {0}
  {
    forall it | it in LaOf(states, fws)[s] ensures LaOf(states, fws)[s][it] <= {0} { OnlyEnd(g, lam, fst, states, fplp, init, fws, s, it); }
  }

  lemma KeysAre(a: nat, b: nat, d: nat, lam: seq<bool>, fst: seq<set<nat>>, states: seq<State>, fws: Sets, x: nat, t: nat)
    requires Numbered(a, b, d) && Finished(Cyclic(a, b, d), lam, fst, states) && EnteredOn(a, b, d, states, x, t)
    ensures LaOf(states, fws)[t].Keys == BasisOn(a, b, d, x)
  {
    ClIs(Cyclic(a, b, d), lam, fst, states, t);
    FinishedBasis(a, b, d, x, 0);
  }

  lemma EnteredLookaheads(a: nat, b: nat, d: nat, lam: seq<bool>, fst: seq<set<nat>>, m: Automaton, la: Lookaheads, x: nat, t: nat)
    requires Numbered(a, b, d) && RowClosed(Cyclic(a, b, d), lam, fst, m, la, 0) && Item(3, 0) in la[0] && 0 in la[0][Item(3, 0)]
    requires m.Goes(0, x, t) && t < |la| && la[t].Keys == BasisOn(a, b, d, x) && forall it | it in la[t] :: la[t][it] <= {0}
    ensures IsEntered(a, b, d, x, la[t])
  {
    forall it | it in la[t] ensures la[t][it] == {0} { EndArrives(a, b, d, lam, fst, m, la, it.rule, x, t); }
  }

  /** In the state that is entered on `x`, `$` and nothing else follows each of its configurations. */
  lemma EndFollows(g: Grammar, a: nat, b: nat, d: nat, lam: seq<bool>, fst: seq<set<nat>>, states: seq<State>, fplp: Links, init: Sets, fws: Sets, x: nat, t: nat)
    requires Numbered(a, b, d) && g == Cyclic(a, b, d) && Finished(g, lam, fst, states) && Followed(g, states, fplp, init, fws) && EnteredOn(a, b, d, states, x, t)
    ensures IsEntered(a, b, d, x, LaOf(states, fws)[t])
  {
    assert g.Valid() && AllUnit(g) by { CyclicIsValid(a, b, d); }
    assert Item(3, 0) in StartBasis(g) by { StartIs(a, b, d); }
    FirstRow(g, lam, fst, states, fplp, init, fws, Item(3, 0));
    OnlyEnds(g, lam, fst, states, fplp, init, fws, t);
    KeysAre(a, b, d, lam, fst, states, fws, x, t);
    EnteredLookaheads(a, b, d, lam, fst, AutomatonOf(states), LaOf(states, fws), x, t);
  }

  /** What follows in a state that is entered on `x`. */
  ghost predicate IsEntered(a: nat, b: nat, d: nat, x: nat, la: map<Item, set<nat>>)
  {
    la.Keys == BasisOn(a, b, d, x) && forall it | it in la :: la[it] == {0}
  }
}
