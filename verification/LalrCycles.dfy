/**
 In a grammar without conflicts, no token can follow a configuration at the start of a rule
 that belongs to a cycle of unit rules.  So the third compression pass never meets a cycle
 in the tables of an LALR(1) grammar.
 */
module LalrCycles {
  import opened Options
  import opened Grammars
  import opened FirstSets
  import opened Items
  import opened Configlist
  import opened Actions
  import opened States
  import opened FollowSets
  import opened FindActions
  import opened Machine
  import opened Soundness
  import opened Completeness
  import opened Lalr
  import opened Optimized
  import opened Compress
  import opened ShortCuts
  import opened ThreePasses
  import opened ActionsExist

  // ---------------------------------------------------------------------------
  // Cycles of unit rules
  // ---------------------------------------------------------------------------

  /** The rules form a cycle: each has one symbol on the right, which the rule before has on the left. */
  ghost predicate IsUnitCycle(g: Grammar, cyc: seq<nat>)
  {
    && cyc != [] && (forall i | 0 <= i < |cyc| :: IsUnit(g, cyc[i]))
    && (forall i | 0 < i < |cyc| :: g.rules[cyc[i - 1]].lhs == g.rules[cyc[i]].rhs[0])
    && g.rules[cyc[|cyc| - 1]].lhs == g.rules[cyc[0]].rhs[0]
  }

  ghost predicate IsUnit(g: Grammar, r: nat)
  {
    r < |g.rules| && |g.rules[r].rhs| == 1 && g.rules[r].lhs != g.start
  }

  function Before(cyc: seq<nat>, i: nat): nat
    requires i < |cyc|
  {
    if i > 0 then i - 1 else |cyc| - 1
  }

  function After(cyc: seq<nat>, i: nat): nat
    requires i < |cyc|
  {
    if i + 1 < |cyc| then i + 1 else 0
  }

  lemma CycleCalls(g: Grammar, cyc: seq<nat>, i: nat)
    requires IsUnitCycle(g, cyc) && i < |cyc|
    ensures Calls(g, Item(cyc[i], 0), cyc[Before(cyc, i)]) && Rest(g, Item(cyc[i], 0)) == []
    ensures HasNext(g, Item(cyc[After(cyc, i)], 0), g.rules[cyc[i]].lhs)
  {
  }

  /** The token follows the start of rule `cyc[i]` in the row. */
  ghost predicate Carries(la: map<Item, set<nat>>, cyc: seq<nat>, i: nat, e: nat)
    requires i < |cyc|
  {
    Item(cyc[i], 0) in la && e in la[Item(cyc[i], 0)]
  }

  lemma CarriesBefore(g: Grammar, lam: seq<bool>, fst: seq<set<nat>>, m: Automaton, la: Lookaheads, s: nat, cyc: seq<nat>, i: nat, e: nat)
    requires IsUnitCycle(g, cyc) && i < |cyc| && RowClosed(g, lam, fst, m, la, s) && Carries(la[s], cyc, i, e)
    ensures Carries(la[s], cyc, Before(cyc, i), e)
  {
    CycleCalls(g, cyc, i);
    assert PassesOn(g, lam, Item(cyc[i], 0), cyc[Before(cyc, i)]);
  }

  lemma {:induction false} CarriesDown(g: Grammar, lam: seq<bool>, fst: seq<set<nat>>, m: Automaton, la: Lookaheads, s: nat, cyc: seq<nat>, i: nat, k: nat, e: nat)
    requires IsUnitCycle(g, cyc) && k <= i < |cyc| && RowClosed(g, lam, fst, m, la, s) && Carries(la[s], cyc, i, e)
    ensures Carries(la[s], cyc, k, e)
    decreases i
  {
    if k < i {
      CarriesBefore(g, lam, fst, m, la, s, cyc, i, e);
      CarriesDown(g, lam, fst, m, la, s, cyc, i - 1, k, e);
    }
  }

  /** What follows one rule of the cycle follows all of them. */
  lemma AllCarry(g: Grammar, lam: seq<bool>, fst: seq<set<nat>>, m: Automaton, la: Lookaheads, s: nat, cyc: seq<nat>, i: nat, k: nat, e: nat)
    requires IsUnitCycle(g, cyc) && i < |cyc| && k < |cyc| && RowClosed(g, lam, fst, m, la, s) && Carries(la[s], cyc, i, e)
    ensures Carries(la[s], cyc, k, e)
  {
    CarriesDown(g, lam, fst, m, la, s, cyc, i, 0, e);
    CarriesBefore(g, lam, fst, m, la, s, cyc, 0, e);
    CarriesDown(g, lam, fst, m, la, s, cyc, |cyc| - 1, k, e);
  }

  // ---------------------------------------------------------------------------
  // Where a token enters the cycle
  // ---------------------------------------------------------------------------

  /** A configuration from outside the cycle calls `cyc[i]`, and `e` can come after it. */
  ghost predicate Entry(g: Grammar, lam: seq<bool>, fst: seq<set<nat>>, la: map<Item, set<nat>>, cyc: seq<nat>, it: Item, i: nat, e: nat)
  {
    && i < |cyc| && Calls(g, it, cyc[i]) && SeesAfter(g, lam, fst, la, it, e)
    && forall k | 0 <= k < |cyc| :: it != Item(cyc[k], 0)
  }

  /** The configuration is not one of the cycle, and calls `cyc[i]`. */
  ghost predicate CallsFromOutside(g: Grammar, st: State, cyc: seq<nat>, it: Item, i: nat)
  {
    i < |cyc| && it in st.cfp && Calls(g, it, cyc[i]) && forall k | 0 <= k < |cyc| :: it != Item(cyc[k], 0)
  }

  /** What a set starts with has been brought in by a configuration from outside. */
  lemma SeedIsEntry(g: Grammar, lam: seq<bool>, fst: seq<set<nat>>, states: seq<State>, cyc: seq<nat>, s: nat, i: nat, e: nat) returns (it: Item)
    requires Finished(g, lam, fst, states) && IsUnitCycle(g, cyc) && s < |states| && i < |cyc|
    requires Item(cyc[i], 0) in states[s].fws && e in states[s].fws[Item(cyc[i], 0)]
    ensures CallsFromOutside(g, states[s], cyc, it, i) && InFirst(g, lam, fst, Rest(g, it), e)
  {
    var st := states[s];
    assert EntryOK(g, lam, fst, states, s);
    assert Seeded(g, lam, fst, ItemsOf(st.cfp), SeedOf(s == 0, st.bp), Item(cyc[i], 0), e);
    assert IsUnit(g, cyc[i]);
    assert s == 0 ==> Item(cyc[i], 0) !in st.bp;
    it :| it in ItemsOf(st.cfp) && Calls(g, it, cyc[i]) && InFirst(g, lam, fst, Rest(g, it), e);
    forall k | 0 <= k < |cyc| ensures it != Item(cyc[k], 0) { CycleCalls(g, cyc, k); }
  }

  /** Only a configuration of the same state leads to one at the start of a rule. */
  lemma LinkToStart(g: Grammar, lam: seq<bool>, fst: seq<set<nat>>, states: seq<State>, b: Config, c: Config)
    requires Finished(g, lam, fst, states) && Forward(g, states, b, c) && c.item.dot == 0
    ensures b.st == c.st < |states| && b.item in states[b.st].cfp && PassesOn(g, lam, b.item, c.item.rule)
  {
    assert !IsBackLink(g, states, c, b);
    assert EntryOK(g, lam, fst, states, c.st);
    assert b.item in ItemsOf(states[c.st].cfp);
  }

  /** Wherever a token comes from, it enters the cycle from outside. */
  lemma {:induction false} TokenEnters(g: Grammar, lam: seq<bool>, fst: seq<set<nat>>, states: seq<State>, fplp: Links,
                                       cyc: seq<nat>, s: nat, i: nat, e: nat, a: Config, n: nat) returns (it: Item, k: nat, m: nat)
    requires Finished(g, lam, fst, states) && LinksForward(g, states, fplp) && IsUnitCycle(g, cyc) && s < |states| && i < |cyc|
    requires a.st < |states| && a.item in states[a.st].fws && e in states[a.st].fws[a.item] && ReachIn(fplp, a, Config(s, Item(cyc[i], 0)), n)
    ensures CallsFromOutside(g, states[s], cyc, it, k)
    ensures InFirst(g, lam, fst, Rest(g, it), e) || (AllLambda(lam, Rest(g, it)) && ReachIn(fplp, a, Config(s, it), m))
    decreases n
  {
    m := 0;
    if n == 0 {
      k := i;
      it := SeedIsEntry(g, lam, fst, states, cyc, s, i, e);
    } else {
      var c := Config(s, Item(cyc[i], 0));
      var b :| ReachIn(fplp, a, b, n - 1) && b in fplp && c in fplp[b];
      LinkToStart(g, lam, fst, states, b, c);
      assert b == Config(s, b.item);
      if q :| 0 <= q < |cyc| && b.item == Item(cyc[q], 0) {
        it, k, m := TokenEnters(g, lam, fst, states, fplp, cyc, s, q, e, a, n - 1);
      } else {
        it, k, m := b.item, i, n - 1;
      }
    }
  }

  lemma TokenPassed(g: Grammar, states: seq<State>, fplp: Links, init: Sets, fws: Sets, a: Config, b: Config, n: nat, e: nat)
    requires Followed(g, states, fplp, init, fws) && a in init && e in init[a] && ReachIn(fplp, a, b, n) && IsConfig(states, b)
    ensures b.item in LaOf(states, fws)[b.st] && e in LaOf(states, fws)[b.st][b.item]
  {
    assert Reaches(fplp, a, b) && Arrives(fplp, init, b, e);
    assert b in init && b in fws;
  }

  /** Where a token in a follow set comes from. */
  lemma TokenOrigin(g: Grammar, states: seq<State>, fplp: Links, init: Sets, fws: Sets, s: nat, it: Item, e: nat) returns (a: Config, n: nat)
    requires Followed(g, states, fplp, init, fws) && s < |states| && it in LaOf(states, fws)[s] && e in LaOf(states, fws)[s][it]
    ensures a in init && e in init[a] && ReachIn(fplp, a, Config(s, it), n) && LinksForward(g, states, fplp)
    ensures a.st < |states| && a.item in states[a.st].fws && e in states[a.st].fws[a.item]
  {
    assert Arrives(fplp, init, Config(s, it), e);
    a :| a in init && e in init[a] && Reaches(fplp, a, Config(s, it));
    n :| ReachIn(fplp, a, Config(s, it), n);
    assert IsConfig(states, a);
  }

  /** A token that follows a rule of the cycle has entered the cycle from outside. */
  lemma CycleIsEntered(g: Grammar, lam: seq<bool>, fst: seq<set<nat>>, states: seq<State>, fplp: Links, init: Sets, fws: Sets, cyc: seq<nat>, s: nat, i: nat, e: nat)
      returns (it: Item, k: nat)
    requires Finished(g, lam, fst, states) && Followed(g, states, fplp, init, fws) && IsUnitCycle(g, cyc) && s < |states| && i < |cyc|
    requires Carries(LaOf(states, fws)[s], cyc, i, e)
    ensures Entry(g, lam, fst, LaOf(states, fws)[s], cyc, it, k, e)
  {
    var a, n := TokenOrigin(g, states, fplp, init, fws, s, Item(cyc[i], 0), e);
    var m;
    it, k, m := TokenEnters(g, lam, fst, states, fplp, cyc, s, i, e, a, n);
    if !InFirst(g, lam, fst, Rest(g, it), e) { TokenPassed(g, states, fplp, init, fws, a, Config(s, it), m, e); }
  }

  // ---------------------------------------------------------------------------
  // The conflict
  // ---------------------------------------------------------------------------

  lemma ShiftsOfState(g: Grammar, lam: seq<bool>, fst: seq<set<nat>>, states: seq<State>, u: nat)
    requires Finished(g, lam, fst, states) && u < |states|
    ensures forall k | 0 <= k < |states[u].ap| :: states[u].ap[k].kind.SHIFT?
    ensures forall it, x: nat | it in ItemsOf(states[u].cfp) && HasNext(g, it, x) :: HasShift(states[u], x)
  {
    assert EntryOK(g, lam, fst, states, u) && Built(g, states[u]);
    forall k | 0 <= k < |states[u].ap| ensures states[u].ap[k].kind.SHIFT? { assert ShiftOK(g, states, states[u], states[u].ap[k]); }
    forall it, x: nat | it in ItemsOf(states[u].cfp) && HasNext(g, it, x) ensures HasShift(states[u], x) {
      KernelItems(g, ClosureOf(g, states[u].bp), x);
    }
  }

  lemma RowViewFrom(g: Grammar, lam: seq<bool>, fst: seq<set<nat>>, m: Automaton, la: Lookaheads, u: nat, st: State)
    requires RowClosed(g, lam, fst, m, la, u) && la[u].Keys == ItemsOf(st.cfp) && forall k | 0 <= k < |st.ap| :: st.ap[k].kind.SHIFT?
    requires (forall it, x: nat | it in ItemsOf(st.cfp) && HasNext(g, it, x) :: HasShift(st, x)) && forall it, t: nat | it in la[u] && t in la[u][it] :: g.IsTerminal(t)
    ensures RowView(g, lam, fst, st, la[u])
  {
  }

  lemma TokensOnly(g: Grammar, states: seq<State>, fws: Sets, u: nat)
    requires Bounded(g.nterminal, fws) && u < |states|
    ensures LaOf(states, fws)[u].Keys == ItemsOf(states[u].cfp)
    ensures forall it, t: nat | it in LaOf(states, fws)[u] && t in LaOf(states, fws)[u][it] :: g.IsTerminal(t)
  {
  }

  lemma RowViewOf(g: Grammar, lam: seq<bool>, fst: seq<set<nat>>, states: seq<State>, fplp: Links, init: Sets, fws: Sets, u: nat)
    requires g.Valid() && Finished(g, lam, fst, states) && Followed(g, states, fplp, init, fws) && Bounded(g.nterminal, fws) && u < |states|
    ensures RowView(g, lam, fst, states[u], LaOf(states, fws)[u])
  {
    LookaheadsAreClosed(g, lam, fst, states, fplp, init, fws, u);
    ShiftsOfState(g, lam, fst, states, u);
    TokensOnly(g, states, fws, u);
    RowViewFrom(g, lam, fst, AutomatonOf(states), LaOf(states, fws), u, states[u]);
  }

  /** What is shifted takes its lookaheads along. */
  lemma ShiftedTo(g: Grammar, lam: seq<bool>, fst: seq<set<nat>>, m: Automaton, la: Lookaheads, s: nat, it: Item, x: nat) returns (u: nat)
    requires AutomatonOK(g, m) && RowClosed(g, lam, fst, m, la, s) && s < |m.bases| && it in la[s] && HasNext(g, it, x)
    ensures m.Goes(s, x, u) && u < |la| && Advance(it) in la[u] && la[s][it] <= la[u][Advance(it)]
  {
    assert StateGoOK(g, m, s);
    AdvanceGoes(g, lam, fst, m, la, s, it, x);
    u := m.go[s][x];
  }

  lemma MeetInState(g: Grammar, lam: seq<bool>, fst: seq<set<nat>>, m: Automaton, la: Lookaheads, s: nat, cyc: seq<nat>, i: nat, e: nat, it: Item, k: nat) returns (u: nat)
    requires AutomatonOK(g, m) && RowClosed(g, lam, fst, m, la, s) && s < |m.bases| && IsUnitCycle(g, cyc) && i < |cyc| && Carries(la[s], cyc, i, e)
    requires Entry(g, lam, fst, la[s], cyc, it, k, e)
    ensures u < |la| && Advance(it) in la[u] && la[s][it] <= la[u][Advance(it)]
    ensures Item(cyc[After(cyc, k)], 1) in la[u] && e in la[u][Item(cyc[After(cyc, k)], 1)]
  {
    var j, x := After(cyc, k), g.rules[cyc[k]].lhs;
    AllCarry(g, lam, fst, m, la, s, cyc, i, j, e);
    CycleCalls(g, cyc, k);
    u := ShiftedTo(g, lam, fst, m, la, s, it, x);
    var u' := ShiftedTo(g, lam, fst, m, la, s, Item(cyc[j], 0), x);
    assert Advance(Item(cyc[j], 0)) == Item(cyc[j], 1);
  }

  /** In a state where a rule of the cycle is finished and the other configuration can see the token too, there is a conflict. */
  lemma MeetingConflicts(g: Grammar, lam: seq<bool>, fst: seq<set<nat>>, st: State, la: map<Item, set<nat>>, start: bool, it: Item, r: nat, e: nat)
    requires g.Valid() && |lam| == |fst| == g.nsymbol && Exact(g, lam, fst) && RowView(g, lam, fst, st, la) && IsUnit(g, r)
    requires it in la && ValidItem(g, it) && it != Item(r, 1) && (InFirst(g, lam, fst, Ahead(g, it), e) || (AllLambda(lam, Ahead(g, it)) && e in la[it]))
    requires Item(r, 1) in la && e in la[Item(r, 1)]
    ensures !ConflictFree(g, st, la, start)
  {
    ExactIsClosed(g, lam, fst);
    NextTokenActs(g, lam, fst, st, la, start, it, e, r);
    var b :| IsRaw(g, st, la, start, b) && b.sp == e && b.kind != REDUCE(r);
    assert IsReduction(g, la, r, e);
    assert IsRaw(g, st, la, start, Action(e, REDUCE(r)));
  }

  /** A token that follows the start of a rule of a cycle makes a conflict somewhere. */
  lemma CycleConflicts(g: Grammar, lam: seq<bool>, fst: seq<set<nat>>, states: seq<State>, fplp: Links, init: Sets, fws: Sets, cyc: seq<nat>, s: nat, i: nat, e: nat)
    requires g.Valid() && |lam| == |fst| == g.nsymbol && Exact(g, lam, fst) && Finished(g, lam, fst, states) && Followed(g, states, fplp, init, fws) && Bounded(g.nterminal, fws)
    requires IsUnitCycle(g, cyc) && s < |states| && i < |cyc| && Carries(LaOf(states, fws)[s], cyc, i, e)
    ensures !NoConflicts(g, states, LaOf(states, fws))
  {
    var m, la := AutomatonOf(states), LaOf(states, fws);
    AutomatonIsOK(g, lam, fst, states);
    assert RowClosed(g, lam, fst, m, la, s) by { LookaheadsAreClosed(g, lam, fst, states, fplp, init, fws, s); }
    var it, k := CycleIsEntered(g, lam, fst, states, fplp, init, fws, cyc, s, i, e);
    var u := MeetInState(g, lam, fst, m, la, s, cyc, i, e, it, k);
    RowViewOf(g, lam, fst, states, fplp, init, fws, u);
    AheadIsRest(g, it, cyc, k);
    MeetingConflicts(g, lam, fst, states[u], la[u], u == 0, Advance(it), cyc[After(cyc, k)], e);
  }

  lemma AheadIsRest(g: Grammar, it: Item, cyc: seq<nat>, k: nat)
    requires IsUnitCycle(g, cyc) && k < |cyc| && Calls(g, it, cyc[k]) && it != Item(cyc[After(cyc, k)], 0)
    ensures ValidItem(g, Advance(it)) && Ahead(g, Advance(it)) == Rest(g, it) && Advance(it) != Item(cyc[After(cyc, k)], 1) && IsUnit(g, cyc[After(cyc, k)])
  {
  }

  // ---------------------------------------------------------------------------
  // The tables
  // ---------------------------------------------------------------------------

  /** A set never starts with a token after the first symbol of a rule. */
  lemma NothingSeeded(g: Grammar, lam: seq<bool>, fst: seq<set<nat>>, states: seq<State>, t: nat, r: nat, e: nat)
    requires Finished(g, lam, fst, states) && t < |states| && Item(r, 1) in states[t].fws
    ensures e !in states[t].fws[Item(r, 1)]
  {
    assert EntryOK(g, lam, fst, states, t) && states[0].bp == StartBasis(g);
    assert !Seeded(g, lam, fst, ItemsOf(states[t].cfp), SeedOf(t == 0, states[t].bp), Item(r, 1), e);
  }

  lemma ShiftedFrom(g: Grammar, states: seq<State>, fplp: Links, t: nat, r: nat, a: Config, n: nat) returns (b: Config, k: nat)
    requires LinksForward(g, states, fplp) && a != Config(t, Item(r, 1)) && ReachIn(fplp, a, Config(t, Item(r, 1)), n)
    requires t < |states| && forall it :: (it, Item(r, 1)) !in states[t].fplp
    ensures b.item == Item(r, 0) && IsConfig(states, b) && ReachIn(fplp, a, b, k)
  {
    var c := Config(t, Item(r, 1));
    k := n - 1;
    b :| ReachIn(fplp, a, b, n - 1) && b in fplp && c in fplp[b];
    assert Forward(g, states, b, c);
    assert IsBackLink(g, states, c, b);
    assert Advance(b.item) == Item(r, 1);
  }

  lemma NoLinkInside(g: Grammar, lam: seq<bool>, fst: seq<set<nat>>, states: seq<State>, t: nat, r: nat)
    requires Finished(g, lam, fst, states) && t < |states|
    ensures forall it :: (it, Item(r, 1)) !in states[t].fplp
  {
    assert EntryOK(g, lam, fst, states, t);
  }

  /** What follows a finished unit rule has followed its start, in some state. */
  lemma FollowedItsStart(g: Grammar, states: seq<State>, fplp: Links, init: Sets, fws: Sets, t: nat, r: nat, e: nat) returns (s: nat)
    requires Followed(g, states, fplp, init, fws) && t < |states|
    requires Item(r, 1) in LaOf(states, fws)[t] && e in LaOf(states, fws)[t][Item(r, 1)]
    requires (forall it :: (it, Item(r, 1)) !in states[t].fplp) && (Item(r, 1) in states[t].fws ==> e !in states[t].fws[Item(r, 1)])
    ensures s < |states| && Item(r, 0) in LaOf(states, fws)[s] && e in LaOf(states, fws)[s][Item(r, 0)]
  {
    var a, n := TokenOrigin(g, states, fplp, init, fws, t, Item(r, 1), e);
    var b, k := ShiftedFrom(g, states, fplp, t, r, a, n);
    TokenPassed(g, states, fplp, init, fws, a, b, k, e);
    s := b.st;
  }

  /** A live reduction comes from a finished configuration. */
  lemma ReductionIsSeen(g: Grammar, lam: seq<bool>, fst: seq<set<nat>>, states: seq<State>, la: map<Item, set<nat>>, t: nat, ap: seq<Action>, r: nat, e: nat)
    requires g.Valid() && Finished(g, lam, fst, states) && t < |states| && ActionsOK(g, states[t], la, t == 0, ap) && NoErrors(ap)
    requires e in RowOf(ap) && RowOf(ap)[e] == Reduce(r)
    ensures IsReduction(g, la, r, e)
  {
    var a := RowOfEntry(g, lam, fst, states, la, t, ap, e);
    assert a.kind == REDUCE(r);
    RawLookahead(g, lam, fst, states, la, t, a);
  }

  /** The state that a goto with a short cut leads to reduces on some token. */
  lemma AutoReduces(g: Grammar, tab0: Table, bests: seq<Option<nat>>, auto: Autos, t: nat, r: nat) returns (e: nat)
    requires Passed1(g, tab0, bests, auto) && t < |tab0| && auto[t] == Some(r)
    ensures r < |g.rules| && g.rules[r].lhs != g.start && e in tab0[t] && tab0[t][e] == Reduce(r)
  {
    assert BestOK(g, tab0[t], bests[t]) && auto[t] == AutoFor(tab0[t], bests[t]);
    e :| e in tab0[t] && tab0[t][e] == Reduce(r);
  }

  lemma CutIsUnit(g: Grammar, m: Automaton, tab0: Table, bests: seq<Option<nat>>, auto: Autos, s: nat, x: nat)
    requires PlainTable(g, m, tab0) && Passed1(g, tab0, bests, auto) && s < |tab0| && CutsAt(g, Tab2(g, tab0, bests, auto)[s], x)
    ensures var r := Tab2(g, tab0, bests, auto)[s][x].rule; IsUnit(g, r) && g.rules[r].rhs[0] == x
  {
    var r := CutRule(g, m, tab0, bests, auto, s, x);
    var t := tab0[s][x].st;
    var e := AutoReduces(g, tab0, bests, auto, t, r);
  }

  /** The rules of a cycle of short cuts. */
  lemma CycleOfRow(g: Grammar, m: Automaton, tab0: Table, bests: seq<Option<nat>>, auto: Autos, s: nat, y: nat) returns (cyc: seq<nat>)
    requires PlainTable(g, m, tab0) && Passed1(g, tab0, bests, auto) && s < |tab0|
    requires OnCycle(g, Tab2(g, tab0, bests, auto)[s], y)
    ensures IsUnitCycle(g, cyc) && cyc[0] == Tab2(g, tab0, bests, auto)[s][y].rule
  {
    var row := Tab2(g, tab0, bests, auto)[s];
    Tab2Stays(g, m, tab0, bests, auto, s);
    CycleNeverEnds(g, row, y);
    var v: nat :| 0 < v <= |row| && Hop(g, row, y, v) == y;
    forall i: nat ensures CutsAt(g, row, Hop(g, row, y, i)) && Target(g, row, Hop(g, row, y, i)) == Hop(g, row, y, i + 1) { HopGoesOn(g, row, y, i); }
    cyc := seq(v, i requires 0 <= i => row[Hop(g, row, y, i)].rule);
    forall i | 0 <= i < |cyc| ensures IsUnit(g, cyc[i]) && g.rules[cyc[i]].rhs[0] == Hop(g, row, y, i) && g.rules[cyc[i]].lhs == Hop(g, row, y, i + 1) {
      CutIsUnit(g, m, tab0, bests, auto, s, Hop(g, row, y, i));
    }
  }

  /** The state that a short cut comes from reduces by its rule on a token that follows the start of the rule somewhere. */
  lemma CutIsCarried(g: Grammar, lam: seq<bool>, fst: seq<set<nat>>, states: seq<State>, fplp: Links, init: Sets, fws: Sets, acts: ActionLists,
                     bests: seq<Option<nat>>, auto: Autos, s: nat, y: nat) returns (s': nat, e: nat)
    requires Generated(g, lam, fst, states, fplp, init, fws, acts) && PlainTable(g, AutomatonOf(states), TableOf(acts))
    requires Passed1(g, TableOf(acts), bests, auto) && s < |states| && CutsAt(g, Tab2(g, TableOf(acts), bests, auto)[s], y)
    ensures var r := Tab2(g, TableOf(acts), bests, auto)[s][y].rule;
            s' < |states| && Item(r, 0) in LaOf(states, fws)[s'] && e in LaOf(states, fws)[s'][Item(r, 0)]
  {
    var r := CutRule(g, AutomatonOf(states), TableOf(acts), bests, auto, s, y);
    var t := TableOf(acts)[s][y].st;
    e := AutoReduces(g, TableOf(acts), bests, auto, t, r);
    ReductionIsSeen(g, lam, fst, states, LaOf(states, fws)[t], t, acts[t], r, e);
    NoLinkInside(g, lam, fst, states, t, r);
    if Item(r, 1) in states[t].fws { NothingSeeded(g, lam, fst, states, t, r, e); }
    s' := FollowedItsStart(g, states, fplp, init, fws, t, r, e);
  }

  /** Without conflicts, no row has a cycle of short cuts. */
  lemma LalrIsAcyclic(g: Grammar, lam: seq<bool>, fst: seq<set<nat>>, states: seq<State>, fplp: Links, init: Sets, fws: Sets, acts: ActionLists,
                      bests: seq<Option<nat>>, auto: Autos, s: nat)
    requires Generated(g, lam, fst, states, fplp, init, fws, acts) && Bounded(g.nterminal, fws) && PlainTable(g, AutomatonOf(states), TableOf(acts))
    requires Passed1(g, TableOf(acts), bests, auto) && s < |states| && NoConflicts(g, states, LaOf(states, fws))
    ensures CutsStay(g, Tab2(g, TableOf(acts), bests, auto)[s]) && Acyclic(g, Tab2(g, TableOf(acts), bests, auto)[s])
  {
    var m, tab0 := AutomatonOf(states), TableOf(acts);
    var row := Tab2(g, tab0, bests, auto)[s];
    Tab2Stays(g, m, tab0, bests, auto, s);
    if x :| x in row && !CutsEnd(g, row, x) {
      var y := LeadsToCycle(g, row, x);
      var cyc := CycleOfRow(g, m, tab0, bests, auto, s, y);
      var s', e := CutIsCarried(g, lam, fst, states, fplp, init, fws, acts, bests, auto, s, y);
      CycleConflicts(g, lam, fst, states, fplp, init, fws, cyc, s', 0, e);
      assert false;
    }
  }
}
