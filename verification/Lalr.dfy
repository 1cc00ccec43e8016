/**
 The generator's data seen as an automaton, lookaheads and an action table, and the
 proof that they are what the parser theorems ask for.
 */
module Lalr {
  import opened Options
  import opened Grammars
  import opened FirstSets
  import opened Items
  import opened Configlist
  import opened Actions
  import opened States
  import opened FollowSets
  import opened Conflicts
  import opened FindActions
  import opened Machine
  import opened Soundness
  import opened Completeness

  // ---------------------------------------------------------------------------
  // Action lists as rows of the machine's table
  // ---------------------------------------------------------------------------

  /** What an action means to the parser; nothing if no table entry is made for it. */
  function ActOf(k: Kind): Option<Act>
  {
    match k
    case SHIFT(t) => Some(Shift(t))
    case SHIFTREDUCE(r) => Some(ShiftReduce(r))
    case REDUCE(r) => Some(Reduce(r))
    case ERROR => Some(Act.Error)
    case ACCEPT => Some(Act.Accept)
    case _ => None
  }

  predicate Emits(a: Action)
  {
    ActOf(a.kind).Some?
  }

  /** The row of a state: one entry per action that makes a table entry. */
  function RowOf(ap: seq<Action>): map<nat, Act>
  {
    if ap == [] then map[]
    else if Emits(ap[0]) then RowOf(ap[1..])[ap[0].sp := ActOf(ap[0].kind).value]
    else RowOf(ap[1..])
  }

  /** No two table entries are made for one lookahead. */
  ghost predicate UniqueEmit(ap: seq<Action>)
  {
    forall k, l | 0 <= k < l < |ap| && Emits(ap[k]) && Emits(ap[l]) :: ap[k].sp != ap[l].sp
  }

  ghost predicate HasAction(ap: seq<Action>, x: nat, a: Act)
  {
    exists k :: 0 <= k < |ap| && ap[k].sp == x && ActOf(ap[k].kind) == Some(a)
  }

  /** Every entry of the row comes from an action of the list. */
  lemma {:induction false} RowEntry(ap: seq<Action>, x: nat)
    requires x in RowOf(ap)
    ensures HasAction(ap, x, RowOf(ap)[x])
  {
    if Emits(ap[0]) && ap[0].sp == x {
    } else {
      RowEntry(ap[1..], x);
      var k :| 0 <= k < |ap[1..]| && ap[1..][k].sp == x && ActOf(ap[1..][k].kind) == Some(RowOf(ap[1..])[x]);
      assert ap[k + 1] == ap[1..][k];
    }
  }

  /** With unique lookaheads every action of the list is in the row. */
  lemma {:induction false} RowHas(ap: seq<Action>, k: nat)
    requires UniqueEmit(ap) && k < |ap| && Emits(ap[k])
    ensures ap[k].sp in RowOf(ap) && RowOf(ap)[ap[k].sp] == ActOf(ap[k].kind).value
  {
    if k > 0 {
      assert ap[1..][k - 1] == ap[k];
      RowHas(ap[1..], k - 1);
    }
  }

  // ---------------------------------------------------------------------------
  // The automaton
  // ---------------------------------------------------------------------------

  function GoOf(ap: seq<Action>): map<nat, nat>
  {
    if ap == [] then map[]
    else if ap[0].kind.SHIFT? then GoOf(ap[1..])[ap[0].sp := ap[0].kind.stp]
    else GoOf(ap[1..])
  }

  lemma {:induction false} GoEntry(ap: seq<Action>, x: nat)
    requires x in GoOf(ap)
    ensures exists k :: 0 <= k < |ap| && ap[k] == Action(x, SHIFT(GoOf(ap)[x]))
  {
    if ap[0].kind.SHIFT? && ap[0].sp == x {
      assert ap[0] == Action(x, SHIFT(GoOf(ap)[x]));
    } else {
      GoEntry(ap[1..], x);
      var k :| 0 <= k < |ap[1..]| && ap[1..][k] == Action(x, SHIFT(GoOf(ap[1..])[x]));
      assert ap[k + 1] == ap[1..][k];
    }
  }

  lemma {:induction false} GoHas(ap: seq<Action>, k: nat)
    requires k < |ap| && ap[k].kind.SHIFT? && forall i, j | 0 <= i < j < |ap| :: ap[i].sp != ap[j].sp
    ensures ap[k].sp in GoOf(ap) && GoOf(ap)[ap[k].sp] == ap[k].kind.stp
  {
    if k > 0 {
      assert ap[1..][k - 1] == ap[k];
      GoHas(ap[1..], k - 1);
    }
  }

  ghost function AutomatonOf(states: seq<State>): Automaton
  {
    Automaton(seq(|states|, s requires 0 <= s < |states| => states[s].bp), seq(|states|, s requires 0 <= s < |states| => GoOf(states[s].ap)))
  }

  /** A finished state table. */
  ghost predicate Finished(g: Grammar, lam: seq<bool>, fst: seq<set<nat>>, states: seq<State>)
  {
    && TableOK(g, lam, fst, states) && states != [] && states[0].bp == StartBasis(g)
    && forall s | 0 <= s < |states| :: Built(g, states[s])
  }

  lemma ClIs(g: Grammar, lam: seq<bool>, fst: seq<set<nat>>, states: seq<State>, s: nat)
    requires Finished(g, lam, fst, states) && s < |states|
    ensures AutomatonOf(states).Cl(g, s) == ItemsOf(states[s].cfp) == ClosureOf(g, states[s].bp)
    ensures EntryOK(g, lam, fst, states, s)
  {
    assert EntryOK(g, lam, fst, states, s);
  }

  lemma AutomatonIsOK(g: Grammar, lam: seq<bool>, fst: seq<set<nat>>, states: seq<State>)
    requires Finished(g, lam, fst, states)
    ensures AutomatonOK(g, AutomatonOf(states))
  {
    var m := AutomatonOf(states);
    forall s: nat | s < |m.bases| ensures StateGoOK(g, m, s) {
      ClIs(g, lam, fst, states, s);
      var st := states[s];
      forall x: nat | x in m.go[s] ensures m.go[s][x] < |m.bases| && m.bases[m.go[s][x]] == Kernel(g, m.Cl(g, s), x) != {} {
        GoEntry(st.ap, x);
        var k :| 0 <= k < |st.ap| && st.ap[k] == Action(x, SHIFT(GoOf(st.ap)[x]));
        assert ShiftOK(g, states, st, st.ap[k]);
      }
      forall x: nat | Kernel(g, m.Cl(g, s), x) != {} ensures x in m.go[s] {
        assert Built(g, st) && HasShift(st, x);
        var k :| 0 <= k < |st.ap| && st.ap[k].sp == x;
        assert ShiftOK(g, states, st, st.ap[k]);
        GoHas(st.ap, k);
      }
    }
  }

  /** The symbols with a transition are symbols of some right-hand side: never `$`, never the start symbol. */
  lemma GoSymbols(g: Grammar, lam: seq<bool>, fst: seq<set<nat>>, states: seq<State>, s: nat, k: nat)
    requires g.Valid() && Finished(g, lam, fst, states) && s < |states| && k < |states[s].ap|
    ensures states[s].ap[k].kind.SHIFT? && 1 <= states[s].ap[k].sp < g.nsymbol && states[s].ap[k].sp != g.start
  {
    ClIs(g, lam, fst, states, s);
    var a := states[s].ap[k];
    assert ShiftOK(g, states, states[s], a);
    var it :| it in ClosureOf(g, states[s].bp) && HasNext(g, it, a.sp);
    assert g.ValidRule(g.rules[it.rule]);
  }

  // ---------------------------------------------------------------------------
  // Lookaheads
  // ---------------------------------------------------------------------------

  function LaOf(states: seq<State>, fws: Sets): Lookaheads
  {
    seq(|states|, s requires 0 <= s < |states| =>
          map it | it in states[s].cfp :: if Config(s, it) in fws then fws[Config(s, it)] else {})
  }

  /** The follow sets and links are those that `FindLinks` and `FindFollowSets` leave. */
  ghost predicate Followed(g: Grammar, states: seq<State>, fplp: Links, init: Sets, fws: Sets)
  {
    && LinksStay(fplp, init) && Grown(init, fws)
    && (forall c :: c in init <==> IsConfig(states, c))
    && (forall c | IsConfig(states, c) :: c.item in states[c.st].fws && init[c] == states[c.st].fws[c.item])
    && (forall c, d | c in fplp :: d in fplp[c] <==> Forward(g, states, c, d))
    && (forall c | c in fws :: Passed(fplp, fws, c))
    && (forall c, t: nat | c in fws :: t in fws[c] <==> Arrives(fplp, init, c, t))
  }

  lemma LinkPasses(g: Grammar, states: seq<State>, fplp: Links, init: Sets, fws: Sets, c: Config, d: Config)
    requires Followed(g, states, fplp, init, fws) && IsConfig(states, c) && Forward(g, states, c, d)
    ensures d in fws && fws[c] <= fws[d] && IsConfig(states, d)
  {
    assert c in fws && c in fplp && Passed(fplp, fws, c);
    assert d in fplp[c];
  }

  lemma ShiftLink(g: Grammar, states: seq<State>, s: nat, it: Item, x: nat, t: nat)
    requires s < |states| && it in states[s].cfp && HasNext(g, it, x) && AutomatonOf(states).Goes(s, x, t)
    ensures Forward(g, states, Config(s, it), Config(t, Advance(it)))
  {
    GoEntry(states[s].ap, x);
    var k :| 0 <= k < |states[s].ap| && states[s].ap[k] == Action(x, SHIFT(GoOf(states[s].ap)[x]));
    assert states[s].ap[k].kind == SHIFT(t);
  }

  lemma ShiftPasses(g: Grammar, lam: seq<bool>, fst: seq<set<nat>>, states: seq<State>, fplp: Links, init: Sets, fws: Sets, s: nat, it: Item, x: nat, t: nat)
    requires g.Valid() && Finished(g, lam, fst, states) && Followed(g, states, fplp, init, fws) && s < |states|
    requires it in LaOf(states, fws)[s] && HasNext(g, it, x) && AutomatonOf(states).Goes(s, x, t)
    ensures var la := LaOf(states, fws); t < |la| && Advance(it) in la[t] && la[s][it] <= la[t][Advance(it)]
  {
    ShiftLink(g, states, s, it, x, t);
    LinkPasses(g, states, fplp, init, fws, Config(s, it), Config(t, Advance(it)));
  }

  lemma FirstPasses(g: Grammar, lam: seq<bool>, fst: seq<set<nat>>, states: seq<State>, fplp: Links, init: Sets, fws: Sets, s: nat, it: Item, r: nat, t: nat)
    requires s < |states| && EntryOK(g, lam, fst, states, s) && Built(g, states[s]) && Followed(g, states, fplp, init, fws) && Item(r, 0) in states[s].cfp
    requires it in LaOf(states, fws)[s] && Calls(g, it, r) && InFirst(g, lam, fst, Rest(g, it), t)
    ensures Item(r, 0) in LaOf(states, fws)[s] && t in LaOf(states, fws)[s][Item(r, 0)]
  {
    assert Spontaneous(g, lam, fst, ItemsOf(states[s].cfp), r, t);
    assert Item(r, 0) in states[s].fws && t in states[s].fws[Item(r, 0)];
    assert IsConfig(states, Config(s, Item(r, 0)));
  }

  lemma CallPasses(g: Grammar, lam: seq<bool>, fst: seq<set<nat>>, states: seq<State>, fplp: Links, init: Sets, fws: Sets, s: nat, it: Item, r: nat)
    requires s < |states| && EntryOK(g, lam, fst, states, s) && Built(g, states[s]) && Followed(g, states, fplp, init, fws) && Item(r, 0) in states[s].cfp
    requires it in LaOf(states, fws)[s] && PassesOn(g, lam, it, r)
    ensures Item(r, 0) in LaOf(states, fws)[s] && LaOf(states, fws)[s][it] <= LaOf(states, fws)[s][Item(r, 0)]
  {
    assert (it, Item(r, 0)) in states[s].fplp;
    LinkPasses(g, states, fplp, init, fws, Config(s, it), Config(s, Item(r, 0)));
  }

  lemma CalleesAreIn(g: Grammar, lam: seq<bool>, fst: seq<set<nat>>, states: seq<State>, fplp: Links, init: Sets, fws: Sets, s: nat)
    requires g.Valid() && Finished(g, lam, fst, states) && Followed(g, states, fplp, init, fws) && s < |states|
    ensures EntryOK(g, lam, fst, states, s) && Built(g, states[s]) && LaOf(states, fws)[s].Keys == AutomatonOf(states).Cl(g, s)
    ensures forall it, r: nat | it in LaOf(states, fws)[s] && Calls(g, it, r) :: Item(r, 0) in LaOf(states, fws)[s]
  {
    ClIs(g, lam, fst, states, s);
    ClosureOfIsClosure(g, states[s].bp);
  }

  lemma LookaheadsAreClosed(g: Grammar, lam: seq<bool>, fst: seq<set<nat>>, states: seq<State>, fplp: Links, init: Sets, fws: Sets, s: nat)
    requires g.Valid() && Finished(g, lam, fst, states) && Followed(g, states, fplp, init, fws) && s < |states|
    ensures RowClosed(g, lam, fst, AutomatonOf(states), LaOf(states, fws), s)
  {
    var m, la := AutomatonOf(states), LaOf(states, fws);
    CalleesAreIn(g, lam, fst, states, fplp, init, fws, s);
    forall it, x: nat, t: nat | it in la[s] && HasNext(g, it, x) && m.Goes(s, x, t)
      ensures t < |la| && Advance(it) in la[t] && la[s][it] <= la[t][Advance(it)]
    {
      ShiftPasses(g, lam, fst, states, fplp, init, fws, s, it, x, t);
    }
    forall it, r: nat, t: nat | it in la[s] && Calls(g, it, r) && InFirst(g, lam, fst, Rest(g, it), t) ensures t in la[s][Item(r, 0)] {
      FirstPasses(g, lam, fst, states, fplp, init, fws, s, it, r, t);
    }
    forall it, r: nat | it in la[s] && PassesOn(g, lam, it, r) ensures la[s][it] <= la[s][Item(r, 0)] {
      CallPasses(g, lam, fst, states, fplp, init, fws, s, it, r);
    }
  }

  predicate IsStartRule(g: Grammar, r: nat)
  {
    r < |g.rules| && g.rules[r].lhs == g.start
  }

  /** Only configurations of start rules lead to configurations of start rules. */
  lemma StartLinks(g: Grammar, lam: seq<bool>, fst: seq<set<nat>>, states: seq<State>, c: Config, d: Config)
    requires g.Valid() && Finished(g, lam, fst, states) && Forward(g, states, c, d) && IsStartRule(g, d.item.rule)
    ensures IsStartRule(g, c.item.rule)
  {
    if !IsBackLink(g, states, d, c) {
      ClIs(g, lam, fst, states, c.st);
      assert PassesOn(g, lam, c.item, d.item.rule);
    }
  }

  ghost predicate LinksForward(g: Grammar, states: seq<State>, fplp: Links)
  {
    forall c, d | c in fplp && d in fplp[c] :: Forward(g, states, c, d)
  }

  lemma {:induction false} StartReached(g: Grammar, lam: seq<bool>, fst: seq<set<nat>>, states: seq<State>, fplp: Links, a: Config, c: Config, n: nat)
    requires g.Valid() && Finished(g, lam, fst, states) && LinksForward(g, states, fplp)
    requires ReachIn(fplp, a, c, n) && IsStartRule(g, c.item.rule)
    ensures IsStartRule(g, a.item.rule)
    decreases n
  {
    if n != 0 {
      var b :| ReachIn(fplp, a, b, n - 1) && b in fplp && c in fplp[b];
      StartLinks(g, lam, fst, states, b, c);
      StartReached(g, lam, fst, states, fplp, a, b, n - 1);
    }
  }

  lemma StartInitial(g: Grammar, lam: seq<bool>, fst: seq<set<nat>>, states: seq<State>, c: Config, t: nat)
    requires g.Valid() && Finished(g, lam, fst, states) && IsConfig(states, c) && IsStartRule(g, c.item.rule)
    requires c.item in states[c.st].fws && t in states[c.st].fws[c.item]
    ensures t == 0
  {
    ClIs(g, lam, fst, states, c.st);
    assert Seeded(g, lam, fst, ItemsOf(states[c.st].cfp), SeedOf(c.st == 0, states[c.st].bp), c.item, t);
    assert !Spontaneous(g, lam, fst, ItemsOf(states[c.st].cfp), c.item.rule, t);
  }

  /** Nothing but `$` follows a start rule. */
  lemma StartLookahead(g: Grammar, lam: seq<bool>, fst: seq<set<nat>>, states: seq<State>, fplp: Links, init: Sets, fws: Sets, c: Config, t: nat)
    requires g.Valid() && Finished(g, lam, fst, states) && Followed(g, states, fplp, init, fws)
    requires c in fws && t in fws[c] && IsStartRule(g, c.item.rule)
    ensures t == 0
  {
    assert Arrives(fplp, init, c, t);
    var a :| a in init && t in init[a] && Reaches(fplp, a, c);
    var n: nat :| ReachIn(fplp, a, c, n);
    StartReached(g, lam, fst, states, fplp, a, c, n);
    StartInitial(g, lam, fst, states, a, t);
  }

  lemma StartSeeded(g: Grammar, lam: seq<bool>, fst: seq<set<nat>>, states: seq<State>, fplp: Links, init: Sets, fws: Sets, it: Item)
    requires g.Valid() && Finished(g, lam, fst, states) && Followed(g, states, fplp, init, fws) && it in StartBasis(g)
    ensures it in LaOf(states, fws)[0] && 0 in LaOf(states, fws)[0][it]
  {
    ClIs(g, lam, fst, states, 0);
    ClosureOfIsClosure(g, states[0].bp);
    assert it in ItemsOf(states[0].cfp);
    assert Seeded(g, lam, fst, ItemsOf(states[0].cfp), SeedOf(true, states[0].bp), it, 0);
    assert 0 in states[0].fws[it];
    assert IsConfig(states, Config(0, it));
  }

  // ---------------------------------------------------------------------------
  // The uncompressed table
  // ---------------------------------------------------------------------------

  type ActionLists = seq<seq<Action>>

  function TableOf(acts: ActionLists): Table
  {
    seq(|acts|, s requires 0 <= s < |acts| => RowOf(acts[s]))
  }

  /** No nonassociative tie has left an ERROR action behind. */
  ghost predicate NoErrors(ap: seq<Action>)
  {
    forall k | 0 <= k < |ap| :: ap[k].kind != Kind.ERROR
  }

  /** The action lists that `FindActions` leaves, state by state. */
  ghost predicate ListsOK(g: Grammar, states: seq<State>, la: Lookaheads, acts: ActionLists)
  {
    && |acts| == |states| == |la|
    && forall s: nat | s < |acts| :: ActionsOK(g, states[s], la[s], s == 0, acts[s]) && NoErrors(acts[s])
  }

  /** Everything known about the generator's data before the tables are compressed. */
  ghost predicate Generated(g: Grammar, lam: seq<bool>, fst: seq<set<nat>>, states: seq<State>, fplp: Links, init: Sets, fws: Sets, acts: ActionLists)
  {
    && g.Valid() && |lam| == |fst| == g.nsymbol && Exact(g, lam, fst)
    && Finished(g, lam, fst, states) && Followed(g, states, fplp, init, fws)
    && ListsOK(g, states, LaOf(states, fws), acts)
  }

  lemma RawLookahead(g: Grammar, lam: seq<bool>, fst: seq<set<nat>>, states: seq<State>, la: map<Item, set<nat>>, s: nat, a: Action)
    requires g.Valid() && Finished(g, lam, fst, states) && s < |states| && IsRaw(g, states[s], la, s == 0, a)
    ensures a.sp < g.nsymbol
    ensures a.kind.SHIFT? ==> a in states[s].ap && a.sp != g.start && a.sp >= 1
    ensures a.kind.REDUCE? ==> g.IsTerminal(a.sp) && IsReduction(g, la, a.kind.rp, a.sp)
    ensures a.kind.SHIFT? || a.kind.REDUCE? || (s == 0 && a == Action(g.start, ACCEPT))
  {
    if a in states[s].ap {
      var k :| 0 <= k < |states[s].ap| && states[s].ap[k] == a;
      GoSymbols(g, lam, fst, states, s, k);
    }
  }

  lemma UniqueEntries(g: Grammar, lam: seq<bool>, fst: seq<set<nat>>, states: seq<State>, la: map<Item, set<nat>>, s: nat, ap: seq<Action>)
    requires g.Valid() && Finished(g, lam, fst, states) && s < |states| && ActionsOK(g, states[s], la, s == 0, ap) && NoErrors(ap)
    ensures UniqueEmit(ap) && forall k | 0 <= k < |ap| && Emits(ap[k]) :: ap[k].sp < g.nsymbol && IsRaw(g, states[s], la, s == 0, ap[k])
  {
    forall k | 0 <= k < |ap| && Emits(ap[k]) ensures ap[k].sp < g.nsymbol && IsRaw(g, states[s], la, s == 0, ap[k]) {
      assert Live(ap[k]) || ap[k].kind.ACCEPT?;
      RawLookahead(g, lam, fst, states, la, s, ap[k]);
    }
    forall k, l | 0 <= k < l < |ap| && Emits(ap[k]) && Emits(ap[l]) ensures ap[k].sp != ap[l].sp {
      RawLookahead(g, lam, fst, states, la, s, ap[k]);
      RawLookahead(g, lam, fst, states, la, s, ap[l]);
    }
  }

  lemma ShiftEntrySound(g: Grammar, lam: seq<bool>, fst: seq<set<nat>>, states: seq<State>, s: nat, a: Action)
    requires Finished(g, lam, fst, states) && s < |states| && a in states[s].ap && a.kind.SHIFT?
    ensures EntrySound(g, AutomatonOf(states), s, a.sp, Shift(a.kind.stp))
    ensures AutomatonOf(states).Goes(s, a.sp, a.kind.stp)
  {
    ClIs(g, lam, fst, states, s);
    var k :| 0 <= k < |states[s].ap| && states[s].ap[k] == a;
    GoHas(states[s].ap, k);
    DerivesRefl(g, [a.sp]);
    assert AutomatonOf(states).Goes(s, a.sp, a.kind.stp);
  }

  lemma ReduceEntrySound(g: Grammar, lam: seq<bool>, fst: seq<set<nat>>, states: seq<State>, fplp: Links, init: Sets, fws: Sets, s: nat, r: nat, t: nat)
    requires g.Valid() && Finished(g, lam, fst, states) && Followed(g, states, fplp, init, fws) && s < |states|
    requires IsReduction(g, LaOf(states, fws)[s], r, t)
    ensures EntrySound(g, AutomatonOf(states), s, t, Reduce(r))
  {
    ClIs(g, lam, fst, states, s);
    var it := Item(r, |g.rules[r].rhs|);
    assert it in ItemsOf(states[s].cfp);
    if g.rules[r].lhs == g.start {
      StartLookahead(g, lam, fst, states, fplp, init, fws, Config(s, it), t);
    }
  }

  /** Every entry of the uncompressed table is one the automaton justifies. */
  lemma RawEntrySound(g: Grammar, lam: seq<bool>, fst: seq<set<nat>>, states: seq<State>, fplp: Links, init: Sets, fws: Sets, s: nat, a: Action)
    requires g.Valid() && Finished(g, lam, fst, states) && Followed(g, states, fplp, init, fws) && s < |states|
    requires IsRaw(g, states[s], LaOf(states, fws)[s], s == 0, a)
    ensures Emits(a) && EntrySound(g, AutomatonOf(states), s, a.sp, ActOf(a.kind).value)
  {
    RawLookahead(g, lam, fst, states, LaOf(states, fws)[s], s, a);
    if a.kind.SHIFT? {
      ShiftEntrySound(g, lam, fst, states, s, a);
    } else if a.kind.REDUCE? {
      ReduceEntrySound(g, lam, fst, states, fplp, init, fws, s, a.kind.rp, a.sp);
    }
    EntrySoundOf(g, AutomatonOf(states), s, a);
  }

  lemma EntrySoundOf(g: Grammar, m: Automaton, s: nat, a: Action)
    requires a.kind.SHIFT? || a.kind.REDUCE? || (s == 0 && a == Action(g.start, ACCEPT))
    requires a.kind.SHIFT? ==> EntrySound(g, m, s, a.sp, Shift(a.kind.stp))
    requires a.kind.REDUCE? ==> EntrySound(g, m, s, a.sp, Reduce(a.kind.rp))
    ensures Emits(a) && EntrySound(g, m, s, a.sp, ActOf(a.kind).value)
  {
  }

  lemma RowOfEntry(g: Grammar, lam: seq<bool>, fst: seq<set<nat>>, states: seq<State>, la: map<Item, set<nat>>, s: nat, ap: seq<Action>, x: nat)
      returns (a: Action)
    requires g.Valid() && Finished(g, lam, fst, states) && s < |states| && ActionsOK(g, states[s], la, s == 0, ap) && NoErrors(ap)
    requires x in RowOf(ap)
    ensures x < g.nsymbol && a.sp == x && IsRaw(g, states[s], la, s == 0, a) && ActOf(a.kind) == Some(RowOf(ap)[x])
  {
    UniqueEntries(g, lam, fst, states, la, s, ap);
    RowEntry(ap, x);
    var k :| 0 <= k < |ap| && ap[k].sp == x && ActOf(ap[k].kind) == Some(RowOf(ap)[x]);
    a := ap[k];
  }

  lemma InRow(g: Grammar, lam: seq<bool>, fst: seq<set<nat>>, states: seq<State>, la: map<Item, set<nat>>, s: nat, ap: seq<Action>, a: Action)
    requires g.Valid() && Finished(g, lam, fst, states) && s < |states| && ActionsOK(g, states[s], la, s == 0, ap) && NoErrors(ap)
    requires a in ap && Emits(a)
    ensures a.sp in RowOf(ap) && RowOf(ap)[a.sp] == ActOf(a.kind).value
  {
    UniqueEntries(g, lam, fst, states, la, s, ap);
    var k :| 0 <= k < |ap| && ap[k] == a;
    RowHas(ap, k);
  }

  lemma GotoInRow(g: Grammar, lam: seq<bool>, fst: seq<set<nat>>, states: seq<State>, la: map<Item, set<nat>>, s: nat, ap: seq<Action>, x: nat)
    requires g.Valid() && Finished(g, lam, fst, states) && s < |states| && ActionsOK(g, states[s], la, s == 0, ap) && NoErrors(ap)
    requires x in GoOf(states[s].ap) && (x >= g.nterminal || ConflictFree(g, states[s], la, s == 0))
    ensures x in RowOf(ap) && RowOf(ap)[x] == Shift(GoOf(states[s].ap)[x])
  {
    GoEntry(states[s].ap, x);
    var a := Action(x, SHIFT(GoOf(states[s].ap)[x]));
    assert IsRaw(g, states[s], la, s == 0, a);
    InRow(g, lam, fst, states, la, s, ap, a);
  }

  lemma ReductionInRow(g: Grammar, lam: seq<bool>, fst: seq<set<nat>>, states: seq<State>, la: map<Item, set<nat>>, s: nat, ap: seq<Action>, it: Item, t: nat)
    requires g.Valid() && Finished(g, lam, fst, states) && s < |states| && ActionsOK(g, states[s], la, s == 0, ap) && NoErrors(ap)
    requires ConflictFree(g, states[s], la, s == 0) && it in la && Complete(g, it) && t in la[it] && g.IsTerminal(t)
    ensures t in RowOf(ap) && RowOf(ap)[t] == Reduce(it.rule)
  {
    var a := Action(t, REDUCE(it.rule));
    assert it == Item(it.rule, |g.rules[it.rule].rhs|);
    assert IsReduction(g, la, it.rule, t);
    assert IsRaw(g, states[s], la, s == 0, a);
    InRow(g, lam, fst, states, la, s, ap, a);
  }

  lemma UncompressedRowSound(g: Grammar, lam: seq<bool>, fst: seq<set<nat>>, states: seq<State>, fplp: Links, init: Sets, fws: Sets, acts: ActionLists, s: nat)
    requires Generated(g, lam, fst, states, fplp, init, fws, acts) && s < |states|
    ensures RowSound(g, AutomatonOf(states), TableOf(acts), s)
    ensures g.Default() !in RowOf(acts[s])
  {
    var la := LaOf(states, fws)[s];
    var row := RowOf(acts[s]);
    forall x: nat | x in row ensures x < g.nsymbol && EntrySound(g, AutomatonOf(states), s, x, row[x]) {
      var a := RowOfEntry(g, lam, fst, states, la, s, acts[s], x);
      RawEntrySound(g, lam, fst, states, fplp, init, fws, s, a);
    }
    forall x: nat | g.IsNonterminal(x) && x in GoOf(states[s].ap) ensures x in row && row[x].Shift? {
      GotoInRow(g, lam, fst, states, la, s, acts[s], x);
    }
  }

  /** The uncompressed table is sound. */
  lemma UncompressedSound(g: Grammar, lam: seq<bool>, fst: seq<set<nat>>, states: seq<State>, fplp: Links, init: Sets, fws: Sets, acts: ActionLists)
    requires Generated(g, lam, fst, states, fplp, init, fws, acts)
    ensures AutomatonOK(g, AutomatonOf(states)) && TableSound(g, AutomatonOf(states), TableOf(acts))
  {
    AutomatonIsOK(g, lam, fst, states);
    forall s: nat | s < |acts| ensures RowSound(g, AutomatonOf(states), TableOf(acts), s) {
      UncompressedRowSound(g, lam, fst, states, fplp, init, fws, acts, s);
    }
    var a := Action(g.start, ACCEPT);
    assert IsRaw(g, states[0], LaOf(states, fws)[0], true, a);
    InRow(g, lam, fst, states, LaOf(states, fws)[0], 0, acts[0], a);
  }

  /** No state of the grammar has two actions on one lookahead. */
  ghost predicate NoConflicts(g: Grammar, states: seq<State>, la: Lookaheads)
  {
    |la| == |states| && forall s: nat | s < |states| :: ConflictFree(g, states[s], la[s], s == 0)
  }

  lemma UncompressedRowComplete(g: Grammar, lam: seq<bool>, fst: seq<set<nat>>, states: seq<State>, la: Lookaheads, acts: ActionLists, s: nat)
    requires g.Valid() && Finished(g, lam, fst, states) && |la| == |states| == |acts| && s < |states|
    requires ActionsOK(g, states[s], la[s], s == 0, acts[s]) && NoErrors(acts[s]) && ConflictFree(g, states[s], la[s], s == 0)
    requires forall it, t: nat | it in la[s] && t in la[s][it] :: g.IsTerminal(t)
    ensures RowComplete(g, AutomatonOf(states), la, TableOf(acts), s)
  {
    var row := RowOf(acts[s]);
    forall x: nat | x in GoOf(states[s].ap) ensures x in row && row[x] == Shift(GoOf(states[s].ap)[x]) {
      GotoInRow(g, lam, fst, states, la[s], s, acts[s], x);
    }
    forall it, t: nat | it in la[s] && Complete(g, it) && t in la[s][it] ensures t in row && row[t] == Reduce(it.rule) {
      ReductionInRow(g, lam, fst, states, la[s], s, acts[s], it, t);
    }
  }

  /** Without conflicts the uncompressed table is complete. */
  lemma UncompressedComplete(g: Grammar, lam: seq<bool>, fst: seq<set<nat>>, states: seq<State>, fplp: Links, init: Sets, fws: Sets, acts: ActionLists)
    requires Generated(g, lam, fst, states, fplp, init, fws, acts) && NoConflicts(g, states, LaOf(states, fws))
    requires Bounded(g.nterminal, fws)
    ensures Setup(g, lam, fst, AutomatonOf(states), LaOf(states, fws), TableOf(acts))
  {
    UncompressedSound(g, lam, fst, states, fplp, init, fws, acts);
    forall s: nat | s < |states| ensures RowClosed(g, lam, fst, AutomatonOf(states), LaOf(states, fws), s) {
      LookaheadsAreClosed(g, lam, fst, states, fplp, init, fws, s);
    }
    forall s: nat | s < |states| ensures RowComplete(g, AutomatonOf(states), LaOf(states, fws), TableOf(acts), s) {
      assert ConflictFree(g, states[s], LaOf(states, fws)[s], s == 0);
      UncompressedRowComplete(g, lam, fst, states, LaOf(states, fws), acts, s);
    }
    forall it | it in StartBasis(g) ensures it in LaOf(states, fws)[0] && 0 in LaOf(states, fws)[0][it] {
      StartSeeded(g, lam, fst, states, fplp, init, fws, it);
    }
  }
}
