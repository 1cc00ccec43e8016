/**
 What the generator does with a cycle of code-free unit rules.  If the symbol from which the
 cycle is entered has the lowest number, the third compression pass never ends; if a symbol
 of the cycle has, its assertion fails.
 */
module UnitCycleExample {
  import opened FiniteSets
  import opened Options
  import opened Grammars
  import opened Items
  import opened Configlist
  import opened Actions
  import opened States
  import opened FollowSets
  import opened MergeSort
  import opened Conflicts
  import opened FindActions
  import opened Machine
  import opened Lalr
  import opened Optimized
  import opened Compress
  import opened ShortCuts
  import opened ThreePasses
  import opened Compression
  import opened CyclicGrammar
  import opened Lemon

  // ---------------------------------------------------------------------------
  // The action lists
  // ---------------------------------------------------------------------------

  /** The rule that is reduced by in the state that is entered on `x`. */
  function Winner(a: nat, b: nat, d: nat, x: nat): nat
  {
    if x == a then 0 else if x == b then 1 else if x == d then 2 else 4
  }

  /** The list reduces by one rule, on `$`, and does nothing else. */
  ghost predicate OnlyReduces(ap: seq<Action>, r: nat)
  {
    && (exists k :: 0 <= k < |ap| && ap[k] == Action(0, REDUCE(r)))
    && (forall k | 0 <= k < |ap| && Emits(ap[k]) :: ap[k] == Action(0, REDUCE(r)))
    && UniqueEmit(ap)
  }

  lemma EnteredRaw(a: nat, b: nat, d: nat, x: nat, st: State, la: map<Item, set<nat>>, act: Action)
    requires Numbered(a, b, d) && x in {a, b, d, TOKEN} && IsEntered(a, b, d, x, la) && st.ap == []
    ensures IsRaw(Cyclic(a, b, d), st, la, false, act) <==> act.sp == 0 && act.kind.REDUCE? && act.kind.rp < 5 && Only(a, b, d, act.kind.rp) == x
  {
    if act.kind.REDUCE? && act.kind.rp < 5 { assert |Cyclic(a, b, d).rules[act.kind.rp].rhs| == 1; }
  }

  lemma WinnerDominates(a: nat, b: nat, d: nat, x: nat, sorted: seq<Action>, k: nat)
    requires Numbered(a, b, d) && x in {a, b, d, TOKEN} && NoDup(sorted) && k < |sorted| && sorted[k] == Action(0, REDUCE(Winner(a, b, d, x)))
    requires forall act | act in sorted :: act.sp == 0 && act.kind.REDUCE? && act.kind.rp < 5 && Only(a, b, d, act.kind.rp) == x
    ensures Dominates(Cyclic(a, b, d), sorted, k)
  {
    var g := Cyclic(a, b, d);
    forall l | 0 <= l < |sorted| && l != k && sorted[l].sp == sorted[k].sp && Live(sorted[l]) ensures 0 <= ActionPrec(g, sorted[l]) < ActionPrec(g, sorted[k]) {
      assert sorted[l] in sorted && sorted[l] != sorted[k];
      assert x == a && sorted[l].kind == REDUCE(3);
    }
  }

  lemma EnteredSorted(a: nat, b: nat, d: nat, x: nat, st: State, la: map<Item, set<nat>>, sorted: seq<Action>) returns (k: nat)
    requires Numbered(a, b, d) && x in {a, b, d, TOKEN} && IsEntered(a, b, d, x, la) && st.ap == [] && IsSortedRaw(Cyclic(a, b, d), st, la, false, sorted)
    ensures Dominates(Cyclic(a, b, d), sorted, k) && sorted[k] == Action(0, REDUCE(Winner(a, b, d, x)))
    ensures forall l | 0 <= l < |sorted| :: sorted[l].sp == 0 && sorted[l].kind.REDUCE?
  {
    forall act ensures act in sorted <==> act.sp == 0 && act.kind.REDUCE? && act.kind.rp < 5 && Only(a, b, d, act.kind.rp) == x {
      EnteredRaw(a, b, d, x, st, la, act);
    }
    assert Action(0, REDUCE(Winner(a, b, d, x))) in sorted;
    k :| 0 <= k < |sorted| && sorted[k] == Action(0, REDUCE(Winner(a, b, d, x)));
    WinnerDominates(a, b, d, x, sorted, k);
    forall l | 0 <= l < |sorted| ensures sorted[l].sp == 0 && sorted[l].kind.REDUCE? { assert sorted[l] in sorted; }
  }

  /** The list of a state that is entered on a symbol. */
  lemma EnteredList(a: nat, b: nat, d: nat, x: nat, st: State, la: map<Item, set<nat>>, ap: seq<Action>)
    requires Numbered(a, b, d) && x in {a, b, d, TOKEN} && IsEntered(a, b, d, x, la) && st.ap == [] && ActionsMade(Cyclic(a, b, d), st, la, false, ap)
    ensures OnlyReduces(ap, Winner(a, b, d, x))
  {
    var sorted: seq<Action> :| IsSortedRaw(Cyclic(a, b, d), st, la, false, sorted) && ap == ResolveFrom(Cyclic(a, b, d), sorted, 0);
    LoopResolves(Cyclic(a, b, d), sorted);
    var k := EnteredSorted(a, b, d, x, st, la, sorted);
    ResolvedReduces(Cyclic(a, b, d), sorted, ap, k, Winner(a, b, d, x));
  }

  lemma ResolvedReduces(g: Grammar, sorted: seq<Action>, ap: seq<Action>, k: nat, r: nat)
    requires IsResolved(g, sorted, ap) && Dominates(g, sorted, k) && sorted[k] == Action(0, REDUCE(r))
    requires forall l | 0 <= l < |sorted| :: sorted[l].sp == 0 && sorted[l].kind.REDUCE?
    ensures OnlyReduces(ap, r)
  {
    assert ap[k] == sorted[k];
    assert forall i: nat, j: nat :: !TieAt(g, sorted, i, j);
    forall l: nat | l < |ap| && Emits(ap[l]) ensures l == k {
      assert !HasTie(g, sorted, l);
      assert ap[l].sp == sorted[l].sp == 0 && ap[l].kind != Kind.ERROR;
      assert Live(ap[l]) && Live(ap[k]);
    }
  }

  /** The list of the first state: a shift on each of the four symbols, and the accept action. */
  ghost predicate OnlyGoes(a: nat, b: nat, d: nat, go: map<nat, nat>, ap: seq<Action>)
  {
    && (forall act :: act in ap <==> (act.sp in go && act.kind == SHIFT(go[act.sp])) || act == Action(START, ACCEPT))
    && UniqueEmit(ap)
  }

  lemma FirstRaw(a: nat, b: nat, d: nat, st: State, la: map<Item, set<nat>>, act: Action)
    requires Numbered(a, b, d) && la.Keys == Initial()
    ensures IsRaw(Cyclic(a, b, d), st, la, true, act) <==> act in st.ap || act == Action(START, ACCEPT)
  {
    if act.kind.REDUCE? && act.kind.rp < 5 { assert |Cyclic(a, b, d).rules[act.kind.rp].rhs| == 1; }
  }

  lemma {:induction false} GoListed(ap: seq<Action>, act: Action)
    requires (forall k | 0 <= k < |ap| :: ap[k].kind.SHIFT?) && forall j, k | 0 <= j < k < |ap| :: ap[j].sp != ap[k].sp
    ensures act in ap <==> act.sp in GoOf(ap) && act.kind == SHIFT(GoOf(ap)[act.sp])
  {
    if act in ap {
      var k :| 0 <= k < |ap| && ap[k] == act;
      GoHas(ap, k);
    }
    if act.sp in GoOf(ap) { GoEntry(ap, act.sp); }
  }

  lemma FirstSorted(a: nat, b: nat, d: nat, st: State, la: map<Item, set<nat>>, sorted: seq<Action>)
    requires Numbered(a, b, d) && la.Keys == Initial() && IsSortedRaw(Cyclic(a, b, d), st, la, true, sorted) && ShiftList(Cyclic(a, b, d), st.ap)
    ensures OnlyGoes(a, b, d, GoOf(st.ap), sorted) && DistinctLookaheads(sorted)
  {
    forall act ensures act in sorted <==> (act.sp in GoOf(st.ap) && act.kind == SHIFT(GoOf(st.ap)[act.sp])) || act == Action(START, ACCEPT) {
      FirstRaw(a, b, d, st, la, act);
      GoListed(st.ap, act);
    }
    forall k, l | 0 <= k < l < |sorted| ensures sorted[k].sp != sorted[l].sp {
      assert sorted[k] in sorted && sorted[l] in sorted;
      FirstRaw(a, b, d, st, la, sorted[k]);
      FirstRaw(a, b, d, st, la, sorted[l]);
    }
  }

  lemma FirstList(a: nat, b: nat, d: nat, st: State, la: map<Item, set<nat>>, ap: seq<Action>)
    requires Numbered(a, b, d) && la.Keys == Initial() && ActionsMade(Cyclic(a, b, d), st, la, true, ap) && ShiftList(Cyclic(a, b, d), st.ap)
    ensures OnlyGoes(a, b, d, GoOf(st.ap), ap)
  {
    var sorted: seq<Action> :| IsSortedRaw(Cyclic(a, b, d), st, la, true, sorted) && ap == ResolveFrom(Cyclic(a, b, d), sorted, 0);
    LoopResolves(Cyclic(a, b, d), sorted);
    FirstSorted(a, b, d, st, la, sorted);
  }

  // ---------------------------------------------------------------------------
  // The row of the first state after two passes
  // ---------------------------------------------------------------------------

  lemma ReducingBest(g: Grammar, ap: seq<Action>, r: nat, best: Option<nat>)
    requires OnlyReduces(ap, r) && !IsStartRule(g, r) && MostFrequent(g, ap, best)
    ensures best == Some(r) && AutoFor(RowOf(ap), best) == Some(r)
  {
    var k :| 0 <= k < |ap| && ap[k] == Action(0, REDUCE(r));
    if best.Some? && best != Some(r) { CountSplit(ap, best.value, 0, |ap|); }
    ListsRow(ap);
    forall x | x in RowOf(ap) ensures RowOf(ap)[x] == Reduce(r) { assert HasAction(ap, x, RowOf(ap)[x]); }
  }

  lemma GoingBest(g: Grammar, ap: seq<Action>, best: Option<nat>)
    requires (forall k | 0 <= k < |ap| :: !ap[k].kind.REDUCE?) && MostFrequent(g, ap, best)
    ensures best == None
  {
    if best.Some? { CountSplit(ap, best.value, 0, |ap|); }
  }

  lemma GoingRow(a: nat, b: nat, d: nat, go: map<nat, nat>, ap: seq<Action>)
    requires OnlyGoes(a, b, d, go, ap) && START !in go
    ensures RowOf(ap) == (map x: nat | x in go :: Shift(go[x]))[START := Act.Accept]
  {
    ListsRow(ap);
    var row := (map x: nat | x in go :: Shift(go[x]))[START := Act.Accept];
    forall x: nat | x in row ensures HasAction(ap, x, row[x]) {
      var act := if x == START then Action(START, ACCEPT) else Action(x, SHIFT(go[x]));
      assert act in ap;
      var k :| 0 <= k < |ap| && ap[k] == act;
    }
    forall k | 0 <= k < |ap| && Emits(ap[k]) ensures ap[k].sp in row && row[ap[k].sp] == ActOf(ap[k].kind).value { assert ap[k] in ap; }
    assert Lists(ap, row);
    RowIs(ap, row);
  }

  /** The row of the first state: every goto leads to a state that only reduces. */
  function CyclicRow(a: nat, b: nat, d: nat): map<nat, Act>
  {
    map[TOKEN := ShiftReduce(4), START := Act.Accept, a := ShiftReduce(0), b := ShiftReduce(1), d := ShiftReduce(2)]
  }

  lemma RowAfterTwo(a: nat, b: nat, d: nat, go: map<nat, nat>, auto: Autos)
    requires Numbered(a, b, d) && go.Keys == {a, b, d, TOKEN} && forall x | x in go :: AutoOf(auto, go[x]) == Some(Winner(a, b, d, x))
    ensures Row2(auto, (map x: nat | x in go :: Shift(go[x]))[START := Act.Accept]) == CyclicRow(a, b, d)
  {
    var row := (map x: nat | x in go :: Shift(go[x]))[START := Act.Accept];
    assert Row2(auto, row).Keys == CyclicRow(a, b, d).Keys;
    forall x | x in CyclicRow(a, b, d) ensures Row2(auto, row)[x] == CyclicRow(a, b, d)[x] { }
  }

  // ---------------------------------------------------------------------------
  // The cycle
  // ---------------------------------------------------------------------------

  lemma RowCuts(a: nat, b: nat, d: nat)
    requires Numbered(a, b, d)
    ensures var g, row := Cyclic(a, b, d), CyclicRow(a, b, d);
            && CutsAt(g, row, a) && Target(g, row, a) == b && CutsAt(g, row, b) && Target(g, row, b) == a && CutsAt(g, row, d) && Target(g, row, d) == a
            && !CutsAt(g, row, TOKEN) && !CutsAt(g, row, START) && CutsStay(g, row) && |row| == 5
  {
    assert CyclicRow(a, b, d).Keys == {TOKEN, START, a, b, d};
  }

  lemma {:induction false} NeverBack(a: nat, b: nat, d: nat, v: nat)
    requires Numbered(a, b, d)
    ensures Hop(Cyclic(a, b, d), CyclicRow(a, b, d), a, v) in {a, b} && Hop(Cyclic(a, b, d), CyclicRow(a, b, d), b, v) in {a, b}
  {
    RowCuts(a, b, d);
    if v > 0 { NeverBack(a, b, d, v - 1); }
  }

  /** `a` and `b` are on the cycle, `d` leads into it. */
  lemma WhoIsOnCycle(a: nat, b: nat, d: nat)
    requires Numbered(a, b, d)
    ensures var g, row := Cyclic(a, b, d), CyclicRow(a, b, d);
            && OnCycle(g, row, a) && !CutsEnd(g, row, a) && !CutsEnd(g, row, b) && !OnCycle(g, row, d) && !CutsEnd(g, row, d)
            && CutsEnd(g, row, TOKEN) && CutsEnd(g, row, START)
  {
    var g, row := Cyclic(a, b, d), CyclicRow(a, b, d);
    RowCuts(a, b, d);
    assert Hop(g, row, a, 2) == Hop(g, row, b, 1) == Hop(g, row, a, 0) == a;
    CycleNeverEnds(g, row, a);
    EndsStep(g, row, b);
    EndsStep(g, row, d);
    forall v: nat | v > 0 ensures Hop(g, row, d, v) != d { NeverBack(a, b, d, v - 1); }
  }

  // ---------------------------------------------------------------------------
  // The generator on the grammar
  // ---------------------------------------------------------------------------

  /** A state other than the first has been entered on a symbol, and shifts nothing. */
  lemma OtherStates(a: nat, b: nat, d: nat, lam: seq<bool>, fst: seq<set<nat>>, states: seq<State>, s: nat) returns (x: nat)
    requires Numbered(a, b, d) && Finished(Cyclic(a, b, d), lam, fst, states) && 0 < s < |states|
    ensures x in {a, b, d, TOKEN} && EnteredOn(a, b, d, states, x, s) && states[s].ap == []
  {
    StatesAre(a, b, d, lam, fst, states, s);
    assert states[0].bp != states[s].bp;
    x :| x in {a, b, d, TOKEN} && states[s].bp == BasisOn(a, b, d, x);
    GotosAre(a, b, d, lam, fst, states, x);
    var t := GoOf(states[0].ap)[x];
    SameBasis(states, s, t);
    NoShifts(a, b, d, lam, fst, states, x, s);
  }

  lemma SameBasis(states: seq<State>, s: nat, t: nat)
    requires Distinct(states) && s < |states| && t < |states| && states[s].bp == states[t].bp
    ensures s == t
  {
  }

  lemma NoShifts(a: nat, b: nat, d: nat, lam: seq<bool>, fst: seq<set<nat>>, states: seq<State>, x: nat, s: nat)
    requires Finished(Cyclic(a, b, d), lam, fst, states) && s < |states| && states[s].bp == BasisOn(a, b, d, x)
    ensures states[s].ap == []
  {
    assert EntryOK(Cyclic(a, b, d), lam, fst, states, s);
    if states[s].ap != [] {
      assert ShiftOK(Cyclic(a, b, d), states, states[s], states[s].ap[0]);
      FinishedBasis(a, b, d, x, states[s].ap[0].sp);
    }
  }

  lemma FewShifts(a: nat, b: nat, d: nat, lam: seq<bool>, fst: seq<set<nat>>, states: seq<State>, s: nat)
    requires Numbered(a, b, d) && Finished(Cyclic(a, b, d), lam, fst, states) && s < |states|
    ensures |states[s].ap| <= 4
  {
    if s == 0 {
      var st := states[0];
      StateReady(Cyclic(a, b, d), lam, fst, states, 0) by { CyclicIsValid(a, b, d); }
      var syms := seq(|st.ap|, k requires 0 <= k < |st.ap| => st.ap[k].sp);
      forall k | 0 <= k < |syms| ensures syms[k] in {a, b, d, TOKEN} {
        GoHas(st.ap, k);
        GotosAre(a, b, d, lam, fst, states, st.ap[k].sp);
      }
      Pigeonhole(syms, {a, b, d, TOKEN});
    } else {
      var x := OtherStates(a, b, d, lam, fst, states, s);
    }
  }

  lemma FewConfigs(a: nat, b: nat, d: nat, lam: seq<bool>, fst: seq<set<nat>>, states: seq<State>, s: nat)
    requires Numbered(a, b, d) && Finished(Cyclic(a, b, d), lam, fst, states) && s < |states|
    ensures |states[s].cfp| <= 10
  {
    StateReady(Cyclic(a, b, d), lam, fst, states, s) by { CyclicIsValid(a, b, d); }
    var all := Initial() + {Item(0, 1), Item(1, 1), Item(2, 1), Item(3, 1), Item(4, 1)};
    forall k | 0 <= k < |states[s].cfp| ensures states[s].cfp[k] in all {
      var it := states[s].cfp[k];
      assert it in ItemsOf(states[s].cfp);
      RulesAreUnit(a, b, d, it, 0);
      assert it == Item(it.rule, it.dot);
    }
    Pigeonhole(states[s].cfp, all);
  }

  lemma {:induction false} PowGrows(n: nat)
    requires n >= 6
    ensures Pow2(n) >= 64
  {
    if n > 6 { PowGrows(n - 1); } else { assert Pow2(6) == 2 * Pow2(5) == 4 * Pow2(4) == 8 * Pow2(3) == 16 * Pow2(2) == 32 * Pow2(1) == 64 * Pow2(0); }
  }

  lemma Fits(a: nat, b: nat, d: nat, lam: seq<bool>, fst: seq<set<nat>>, states: seq<State>)
    requires Numbered(a, b, d) && Finished(Cyclic(a, b, d), lam, fst, states)
    ensures AllSized(Cyclic(a, b, d), states)
  {
    PowGrows(LISTSIZE);
    FewStates(a, b, d, lam, fst, states);
    forall s | 0 <= s < |states| ensures Sized(Cyclic(a, b, d), states[s]) {
      FewShifts(a, b, d, lam, fst, states, s);
      FewConfigs(a, b, d, lam, fst, states, s);
    }
  }

  lemma FirstConfigs(a: nat, b: nat, d: nat, lam: seq<bool>, fst: seq<set<nat>>, states: seq<State>, fws: Sets)
    requires Numbered(a, b, d) && Finished(Cyclic(a, b, d), lam, fst, states)
    ensures LaOf(states, fws)[0].Keys == Initial() && ShiftList(Cyclic(a, b, d), states[0].ap)
    ensures GoOf(states[0].ap).Keys == {a, b, d, TOKEN}
  {
    assert LaOf(states, fws)[0].Keys == Initial() by {
      ClIs(Cyclic(a, b, d), lam, fst, states, 0);
      StatesAre(a, b, d, lam, fst, states, 0);
      InitialIsClosure(a, b, d);
    }
    StateReady(Cyclic(a, b, d), lam, fst, states, 0) by { CyclicIsValid(a, b, d); }
    forall x ensures x in GoOf(states[0].ap) <==> x in {a, b, d, TOKEN} { GotosAre(a, b, d, lam, fst, states, x); }
  }

  /** The lists of all states. */
  lemma ListsAre(g: Grammar, a: nat, b: nat, d: nat, mk: Making, s: nat) returns (x: nat)
    requires Numbered(a, b, d) && g == Cyclic(a, b, d) && Analysed(g, mk.lam, mk.fst, mk.states, mk.fplp, mk.init, mk.fws)
    requires ListsMade(g, mk.states, mk.fws, mk.acts) && s < |mk.states|
    ensures s == 0 ==> OnlyGoes(a, b, d, GoOf(mk.states[0].ap), mk.acts[0])
    ensures s > 0 ==> x in {a, b, d, TOKEN} && EnteredOn(a, b, d, mk.states, x, s) && OnlyReduces(mk.acts[s], Winner(a, b, d, x))
  {
    assert StateActions(g, mk.states, LaOf(mk.states, mk.fws), s, mk.acts[s]);
    x := 0;
    if s == 0 {
      FirstConfigs(a, b, d, mk.lam, mk.fst, mk.states, mk.fws);
      FirstList(a, b, d, mk.states[0], LaOf(mk.states, mk.fws)[0], mk.acts[0]);
    } else {
      x := OtherStates(a, b, d, mk.lam, mk.fst, mk.states, s);
      EndFollows(g, a, b, d, mk.lam, mk.fst, mk.states, mk.fplp, mk.init, mk.fws, x, s);
      EnteredList(a, b, d, x, mk.states[s], LaOf(mk.states, mk.fws)[s], mk.acts[s]);
    }
  }

  ghost predicate IsGoto(go: map<nat, nat>, s: nat)
  {
    exists x :: x in go && go[x] == s
  }

  /** The lists of the automaton: the first state goes on, the others only reduce. */
  ghost predicate Known(a: nat, b: nat, d: nat, go: map<nat, nat>, acts: ActionLists)
  {
    && acts != [] && go.Keys == {a, b, d, TOKEN} && OnlyGoes(a, b, d, go, acts[0])
    && (forall x | x in go :: go[x] < |acts| && OnlyReduces(acts[go[x]], Winner(a, b, d, x)))
    && (forall s | 0 < s < |acts| :: IsGoto(go, s))
  }

  lemma GotoIsKnown(g: Grammar, a: nat, b: nat, d: nat, mk: Making, x: nat)
    requires Numbered(a, b, d) && g == Cyclic(a, b, d) && Analysed(g, mk.lam, mk.fst, mk.states, mk.fplp, mk.init, mk.fws)
    requires ListsMade(g, mk.states, mk.fws, mk.acts) && x in GoOf(mk.states[0].ap)
    ensures GoOf(mk.states[0].ap)[x] < |mk.acts| && OnlyReduces(mk.acts[GoOf(mk.states[0].ap)[x]], Winner(a, b, d, x))
  {
    GotosAre(a, b, d, mk.lam, mk.fst, mk.states, x);
    var t := GoOf(mk.states[0].ap)[x];
    assert t != 0 by {
      StatesAre(a, b, d, mk.lam, mk.fst, mk.states, 0);
      assert Item(3, 0) !in BasisOn(a, b, d, x);
    }
    var y := ListsAre(g, a, b, d, mk, t);
    assert x == y by { BasesDiffer(a, b, d, x, y); }
  }

  lemma BasesDiffer(a: nat, b: nat, d: nat, x: nat, y: nat)
    requires Numbered(a, b, d) && x in {a, b, d, TOKEN} && BasisOn(a, b, d, x) == BasisOn(a, b, d, y)
    ensures x == y
  {
    assert Item(Winner(a, b, d, x), 1) in BasisOn(a, b, d, x);
  }

  lemma OtherIsGoto(g: Grammar, a: nat, b: nat, d: nat, mk: Making, s: nat)
    requires Numbered(a, b, d) && g == Cyclic(a, b, d) && Finished(g, mk.lam, mk.fst, mk.states) && 0 < s < |mk.states|
    ensures IsGoto(GoOf(mk.states[0].ap), s)
  {
    var x := OtherStates(a, b, d, mk.lam, mk.fst, mk.states, s);
    GotosAre(a, b, d, mk.lam, mk.fst, mk.states, x);
    assert GoOf(mk.states[0].ap)[x] == s;
  }

  lemma ListsAreKnown(g: Grammar, a: nat, b: nat, d: nat, mk: Making)
    requires Numbered(a, b, d) && g == Cyclic(a, b, d) && Analysed(g, mk.lam, mk.fst, mk.states, mk.fplp, mk.init, mk.fws)
    requires ListsMade(g, mk.states, mk.fws, mk.acts)
    ensures Known(a, b, d, GoOf(mk.states[0].ap), mk.acts)
  {
    var go := GoOf(mk.states[0].ap);
    assert go.Keys == {a, b, d, TOKEN} by { FirstConfigs(a, b, d, mk.lam, mk.fst, mk.states, mk.fws); }
    assert OnlyGoes(a, b, d, go, mk.acts[0]) by { var x := ListsAre(g, a, b, d, mk, 0); }
    forall x | x in go ensures go[x] < |mk.acts| && OnlyReduces(mk.acts[go[x]], Winner(a, b, d, x)) { GotoIsKnown(g, a, b, d, mk, x); }
    forall s | 0 < s < |mk.acts| ensures IsGoto(go, s) { OtherIsGoto(g, a, b, d, mk, s); }
  }

  lemma NoErrorsLeft(a: nat, b: nat, d: nat, go: map<nat, nat>, acts: ActionLists)
    requires Known(a, b, d, go, acts)
    ensures !HasErrors(acts)
  {
    forall s, k | 0 <= s < |acts| && 0 <= k < |acts[s]| ensures acts[s][k].kind != Kind.ERROR {
      if s == 0 {
        assert acts[0][k] in acts[0];
      } else {
        assert IsGoto(go, s);
        var x :| x in go && go[x] == s;
        assert OnlyReduces(acts[s], Winner(a, b, d, x));
      }
    }
  }

  lemma GotosReduce(g: Grammar, a: nat, b: nat, d: nat, go: map<nat, nat>, acts: ActionLists, bests: seq<Option<nat>>, auto: Autos)
    requires Numbered(a, b, d) && g == Cyclic(a, b, d) && Known(a, b, d, go, acts) && |bests| == |auto| == |acts|
    requires forall s: nat | s < |acts| :: MostFrequent(g, acts[s], bests[s]) && auto[s] == AutoFor(RowOf(acts[s]), bests[s])
    ensures forall x | x in go :: AutoOf(auto, go[x]) == Some(Winner(a, b, d, x))
  {
    forall x | x in go ensures AutoOf(auto, go[x]) == Some(Winner(a, b, d, x)) {
      ReducingBest(g, acts[go[x]], Winner(a, b, d, x), bests[go[x]]);
    }
  }

  lemma FirstPassed(g: Grammar, a: nat, b: nat, d: nat, go: map<nat, nat>, ap: seq<Action>, best: Option<nat>)
    requires OnlyGoes(a, b, d, go, ap) && START !in go && MostFrequent(g, ap, best)
    ensures Row1(g, RowOf(ap), best) == (map x: nat | x in go :: Shift(go[x]))[START := Act.Accept]
  {
    forall k | 0 <= k < |ap| ensures !ap[k].kind.REDUCE? { assert ap[k] in ap; }
    GoingBest(g, ap, best);
    GoingRow(a, b, d, go, ap);
  }

  /** The row of the first state after the first two passes. */
  lemma FirstRowIs(g: Grammar, a: nat, b: nat, d: nat, go: map<nat, nat>, acts: ActionLists, bests: seq<Option<nat>>, auto: Autos)
    requires Numbered(a, b, d) && g == Cyclic(a, b, d) && Known(a, b, d, go, acts) && |bests| == |auto| == |acts|
    requires forall s: nat | s < |acts| :: MostFrequent(g, acts[s], bests[s]) && auto[s] == AutoFor(RowOf(acts[s]), bests[s])
    ensures Tab2(g, TableOf(acts), bests, auto)[0] == CyclicRow(a, b, d)
  {
    FirstPassed(g, a, b, d, go, acts[0], bests[0]);
    GotosReduce(g, a, b, d, go, acts, bests, auto);
    RowAfterTwo(a, b, d, go, auto);
    assert TableOf(acts)[0] == RowOf(acts[0]);
  }

  lemma BestsAre(g: Grammar, acts: ActionLists, bests: seq<Option<nat>>, auto: Autos, acts2: ActionLists)
    requires TwoPassed(g, acts, bests, auto, acts2)
    ensures |bests| == |auto| == |acts| && forall s: nat | s < |acts| :: MostFrequent(g, acts[s], bests[s]) && auto[s] == AutoFor(RowOf(acts[s]), bests[s])
  {
    assert forall s: nat | s < |acts| :: TableOf(acts)[s] == RowOf(acts[s]);
  }

  /** The first action that leads into the cycle is the one on the lowest of the three symbols. */
  lemma LowestIsFirst(a: nat, b: nat, d: nat, ap: seq<Action>, x: nat) returns (k: nat)
    requires Numbered(a, b, d) && x == 5 && x in {a, b, d} && Done3(Cyclic(a, b, d), CyclicRow(a, b, d), ap)
    ensures FirstEndless(Cyclic(a, b, d), CyclicRow(a, b, d), ap, k) && ap[k].sp == x
  {
    var g, row := Cyclic(a, b, d), CyclicRow(a, b, d);
    WhoIsOnCycle(a, b, d);
    assert HasAction(ap, x, row[x]);
    k :| 0 <= k < |ap| && ap[k].sp == x && ActOf(ap[k].kind) == Some(row[x]);
    forall l | 0 <= l < k && Emits(ap[l]) ensures CutsEnd(g, row, ap[l].sp) {
      assert ap[l].sp <= x && ap[l].sp != x && ap[l].sp in row;
      assert ap[l].sp == TOKEN || ap[l].sp == START;
    }
  }

  lemma LowestDecides(a: nat, b: nat, d: nat, ap: seq<Action>, out: Passage)
    requires Numbered(a, b, d) && Done3(Cyclic(a, b, d), CyclicRow(a, b, d), ap) && IsPassage(Cyclic(a, b, d), ap, out) && !out.Shortened?
    ensures d == 5 ==> out == Endless
    ensures a == 5 ==> out == Failed
  {
    var g, row := Cyclic(a, b, d), CyclicRow(a, b, d);
    RowCuts(a, b, d);
    WhoIsOnCycle(a, b, d);
    if d == 5 {
      var k := LowestIsFirst(a, b, d, ap, d);
      FirstEndlessDecides(g, row, ap, k);
    } else if a == 5 {
      var k := LowestIsFirst(a, b, d, ap, a);
      FirstEndlessDecides(g, row, ap, k);
    }
  }

  /** What the generator makes of the grammar up to the second pass. */
  lemma FirstRowMade(a: nat, b: nat, d: nat, mk: Making)
    requires Numbered(a, b, d) && MadeFrom(Cyclic(a, b, d), mk)
    ensures AllSized(Cyclic(a, b, d), mk.states) && !HasErrors(mk.acts) && TwoPassed(Cyclic(a, b, d), mk.acts, mk.bests, mk.auto, mk.acts2) && mk.acts != []
    ensures TwoPassTable(Cyclic(a, b, d), mk)[0] == CyclicRow(a, b, d)
  {
    var g, go := Cyclic(a, b, d), GoOf(mk.states[0].ap);
    Fits(a, b, d, mk.lam, mk.fst, mk.states);
    ListsAreKnown(g, a, b, d, mk);
    NoErrorsLeft(a, b, d, go, mk.acts);
    BestsAre(g, mk.acts, mk.bests, mk.auto, mk.acts2);
    FirstRowIs(g, a, b, d, go, mk.acts, mk.bests, mk.auto);
  }

  lemma StopsInFirst(a: nat, b: nat, d: nat, tab2: Table, acts2: ActionLists, s: nat, out: Passage)
    requires Numbered(a, b, d) && tab2 != [] && tab2[0] == CyclicRow(a, b, d) && StopsIn(Cyclic(a, b, d), tab2, acts2, s, out)
    requires Done3(Cyclic(a, b, d), tab2[0], acts2[0])
    ensures s == 0 && (d == 5 ==> out == Endless) && (a == 5 ==> out == Failed)
  {
    WhoIsOnCycle(a, b, d);
    assert a in tab2[0] && !Acyclic(Cyclic(a, b, d), tab2[0]);
    LowestDecides(a, b, d, acts2[0], out);
  }

  /**
   Whatever the generator does with the grammar, it ends in the first state: the third pass
   never ends if the symbol outside the cycle comes first, and fails if one of the cycle does.
   */
  lemma GeneratorStops(a: nat, b: nat, d: nat, mk: Making, product: Product)
    requires Numbered(a, b, d) && MadeFrom(Cyclic(a, b, d), mk) && Produces(Cyclic(a, b, d), mk, product)
    ensures product.UnitCycle? && product.s == 0
    ensures d == 5 ==> product.out == Endless
    ensures a == 5 ==> product.out == Failed
  {
    var g := Cyclic(a, b, d);
    FirstRowMade(a, b, d, mk);
    assert !AllAcyclic(g, TwoPassTable(g, mk)) by {
      WhoIsOnCycle(a, b, d);
      assert a in TwoPassTable(g, mk)[0] && !Acyclic(g, TwoPassTable(g, mk)[0]);
    }
    if product.UnitCycle? { StopsInFirst(a, b, d, TwoPassTable(g, mk), mk.acts2, product.s, product.out); }
  }

  /** The list of the first state is visited for ever. */
  ghost predicate GoesOn(g: Grammar, acts2: ActionLists)
  {
    acts2 != [] && forall n: nat :: Turns(g, At(acts2[0], 0), n).At? && !Turns(g, At(acts2[0], 0), n).Over()
  }

  /** The search in the list of the first state fails. */
  ghost predicate Breaks(g: Grammar, acts2: ActionLists)
  {
    acts2 != [] && exists n: nat :: Turns(g, At(acts2[0], 0), n) == Broken
  }

  lemma StopsHow(a: nat, b: nat, d: nat, mk: Making, product: Product)
    requires Numbered(a, b, d) && MadeFrom(Cyclic(a, b, d), mk) && Produces(Cyclic(a, b, d), mk, product)
    ensures d == 5 ==> product == UnitCycle(0, Endless) && GoesOn(Cyclic(a, b, d), mk.acts2)
    ensures a == 5 ==> product == UnitCycle(0, Failed) && Breaks(Cyclic(a, b, d), mk.acts2)
  {
    GeneratorStops(a, b, d, mk, product);
  }

  /** The symbol from which the cycle is entered has the lowest number: the pass over the first state goes on for ever. */
  method NeverEnds() returns (product: Product, ghost mk: Making)
    ensures MadeFrom(Cyclic(6, 7, 5), mk) && product == UnitCycle(0, Endless) && GoesOn(Cyclic(6, 7, 5), mk.acts2)
  {
    CyclicIsValid(6, 7, 5);
    product, mk := Generate(Cyclic(6, 7, 5));
    StopsHow(6, 7, 5, mk, product);
  }

  /** A symbol of the cycle has the lowest number: the pass over the first state fails its assertion. */
  method SearchFails() returns (product: Product, ghost mk: Making)
    ensures MadeFrom(Cyclic(5, 6, 7), mk) && product == UnitCycle(0, Failed) && Breaks(Cyclic(5, 6, 7), mk.acts2)
  {
    CyclicIsValid(5, 6, 7);
    product, mk := Generate(Cyclic(5, 6, 7));
    StopsHow(5, 6, 7, mk, product);
  }
}
