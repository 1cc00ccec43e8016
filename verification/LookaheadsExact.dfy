/**
 The lookaheads that the generator finds are exactly those of the derivations: nothing is
 missing and nothing is too much.  So it finds a conflict exactly if the grammar is not
 LALR(1).
 */
module LookaheadsExact {
  import opened Grammars
  import opened FirstSets
  import opened Items
  import opened Configlist
  import opened Actions
  import opened States
  import opened FollowSets
  import opened FindActions
  import opened Soundness
  import opened Completeness
  import opened Lalr
  import opened LalrGrammar

  // ---------------------------------------------------------------------------
  // What can begin
  // ---------------------------------------------------------------------------

  /** A symbol that the tables let begin `a` does begin something derived from it. */
  lemma FirstBegins(g: Grammar, lam: seq<bool>, fst: seq<set<nat>>, a: seq<nat>, rest: seq<nat>, t: nat)
    requires g.Valid() && |lam| == |fst| == g.nsymbol && Exact(g, lam, fst) && InFirst(g, lam, fst, a, t)
    ensures CanBegin(g, a + rest, t)
  {
    var j: nat :| Contributes(g, lam, fst, a, t, j);
    ExactIsSound(g, lam, fst);
    AllLambdaDerivesEmpty(g, lam, a[..j]);
    assert !g.IsTerminal(a[j]) ==> g.IsNonterminal(a[j]) && t in fst[a[j]];
    SymbolBegins(g, a, j, rest, t);
  }

  lemma SymbolBegins(g: Grammar, a: seq<nat>, j: nat, rest: seq<nat>, t: nat)
    requires j < |a| && Derives(g, a[..j], []) && (t == a[j] || FirstSets.Begins(g, a[j], t))
    ensures CanBegin(g, a + rest, t)
  {
    var b := BeginsWith(g, a[j], t);
    BeginsInContext(g, a[..j], a[j], a[j + 1..] + rest, t, b);
    assert a[..j] + [a[j]] + (a[j + 1..] + rest) == a + rest;
  }

  /** What vanishes lets the rest begin. */
  lemma EmptyBegins(g: Grammar, lam: seq<bool>, fst: seq<set<nat>>, a: seq<nat>, rest: seq<nat>, t: nat)
    requires g.Valid() && |lam| == |fst| == g.nsymbol && Exact(g, lam, fst) && AllLambda(lam, a) && CanBegin(g, rest, t)
    ensures CanBegin(g, a + rest, t)
  {
    ExactIsSound(g, lam, fst);
    AllLambdaDerivesEmpty(g, lam, a);
    var z :| Derives(g, rest, [t] + z);
    DerivesConcat(g, a, [], rest, [t] + z);
    assert [] + ([t] + z) == [t] + z;
  }

  /** What begins a concatenation begins its first part, or the first part vanishes. */
  lemma BeginsSplits(g: Grammar, lam: seq<bool>, fst: seq<set<nat>>, a: seq<nat>, rest: seq<nat>, t: nat)
    requires g.Valid() && |lam| == |fst| == g.nsymbol && Exact(g, lam, fst) && g.IsTerminal(t) && CanBegin(g, a + rest, t)
    ensures InFirst(g, lam, fst, a, t) || (AllLambda(lam, a) && CanBegin(g, rest, t))
  {
    var z :| Derives(g, a + rest, [t] + z);
    var n: nat :| DerivesIn(g, a + rest, [t] + z, n);
    ExactIsClosed(g, lam, fst);
    BeginsIsFirst(g, lam, fst, a + rest, [t] + z, n);
    var j: nat :| Contributes(g, lam, fst, a + rest, t, j);
    if j < |a| {
      assert (a + rest)[..j] == a[..j];
      assert Contributes(g, lam, fst, a, t, j);
    } else {
      RestContributes(g, lam, fst, a, rest, t, j);
      FirstBegins(g, lam, fst, rest, [], t);
      assert rest + [] == rest;
    }
  }

  lemma RestContributes(g: Grammar, lam: seq<bool>, fst: seq<set<nat>>, a: seq<nat>, rest: seq<nat>, t: nat, j: nat)
    requires Contributes(g, lam, fst, a + rest, t, j) && j >= |a|
    ensures AllLambda(lam, a) && InFirst(g, lam, fst, rest, t)
  {
    var l := (a + rest)[..j];
    forall i | 0 <= i < |a| ensures a[i] < |lam| && lam[a[i]] { assert l[i] == a[i]; }
    var m := rest[..j - |a|];
    forall i | 0 <= i < |m| ensures m[i] < |lam| && lam[m[i]] { assert l[|a| + i] == m[i]; }
    assert Contributes(g, lam, fst, rest, t, j - |a|);
  }

  // ---------------------------------------------------------------------------
  // Nothing is too much
  // ---------------------------------------------------------------------------

  /** Every state is reached over some symbols. */
  lemma StateIsReached(g: Grammar, lam: seq<bool>, fst: seq<set<nat>>, states: seq<State>, s: nat) returns (x: seq<nat>)
    requires Finished(g, lam, fst, states) && s < |states|
    ensures BasisAfter(g, x) == states[s].bp
  {
    var reached := set b | b in Bases(states) && IsReached(g, b);
    assert EntryOK(g, lam, fst, states, s);
    assert StartBasis(g) in reached by {
      assert states[0].bp in Bases(states) && BasisAfter(g, []) == StartBasis(g);
    }
    forall b, a: nat | b in reached && Kernel(g, ClosureOf(g, b), a) != {} ensures Kernel(g, ClosureOf(g, b), a) in reached {
      NextIsReached(g, lam, fst, states, b, a);
    }
    assert GotoClosed(g, reached);
    assert states[s].bp in reached;
    x :| BasisAfter(g, x) == states[s].bp;
  }

  ghost predicate IsReached(g: Grammar, b: set<Item>)
  {
    exists x :: BasisAfter(g, x) == b
  }

  lemma BasisNext(g: Grammar, x: seq<nat>, a: nat)
    ensures BasisAfter(g, x + [a]) == Kernel(g, ClosureOf(g, BasisAfter(g, x)), a)
  {
    assert (x + [a])[..|x|] == x;
  }

  lemma NextIsReached(g: Grammar, lam: seq<bool>, fst: seq<set<nat>>, states: seq<State>, b: set<Item>, a: nat)
    requires Finished(g, lam, fst, states) && b in Bases(states) && IsReached(g, b) && Kernel(g, ClosureOf(g, b), a) != {}
    ensures Kernel(g, ClosureOf(g, b), a) in Bases(states) && IsReached(g, Kernel(g, ClosureOf(g, b), a))
  {
    var x :| BasisAfter(g, x) == b;
    BasisNext(g, x, a);
    var s: nat :| s < |states| && states[s].bp == b;
    var t := HasTarget(g, lam, fst, states, s, a);
    assert states[t].bp in Bases(states);
  }

  /** The state that a state goes to on `a`. */
  lemma HasTarget(g: Grammar, lam: seq<bool>, fst: seq<set<nat>>, states: seq<State>, s: nat, a: nat) returns (t: nat)
    requires Finished(g, lam, fst, states) && s < |states| && Kernel(g, ClosureOf(g, states[s].bp), a) != {}
    ensures t < |states| && states[t].bp == Kernel(g, ClosureOf(g, states[s].bp), a) && AutomatonOf(states).Goes(s, a, t)
  {
    assert EntryOK(g, lam, fst, states, s) && Built(g, states[s]) && HasShift(states[s], a);
    var k :| 0 <= k < |states[s].ap| && states[s].ap[k].sp == a;
    assert ShiftOK(g, states, states[s], states[s].ap[k]);
    GoHas(states[s].ap, k);
    t := states[s].ap[k].kind.stp;
  }

  /** Every configuration of a state has a spine that leads to the state. */
  lemma ConfigHasSpine(g: Grammar, lam: seq<bool>, fst: seq<set<nat>>, states: seq<State>, c: Config) returns (spine: seq<Item>)
    requires Finished(g, lam, fst, states) && IsConfig(states, c)
    ensures SpineTo(g, spine, states[c.st].bp, c.item)
  {
    ClIs(g, lam, fst, states, c.st);
    var x := StateIsReached(g, lam, fst, states, c.st);
    ItemHasSpine(g, x, c.item);
    spine :| IsSpine(g, spine, g.rules[c.item.rule].lhs) && Before(g, spine) + Done(g, c.item) == x;
  }

  /** A rule that a configuration calls is on a spine to the same state. */
  lemma CalledTo(g: Grammar, spine: seq<Item>, b: set<Item>, it: Item, r: nat)
    requires SpineTo(g, spine, b, it) && Calls(g, it, r)
    ensures SpineTo(g, spine + [it], b, Item(r, 0)) && After(g, spine + [it]) == Rest(g, it) + After(g, spine)
  {
    CalledSpine(g, spine, it, r);
  }

  /** What a configuration starts with can follow it. */
  lemma SeedFollows(g: Grammar, lam: seq<bool>, fst: seq<set<nat>>, states: seq<State>, c: Config, t: nat)
    requires g.Valid() && |lam| == |fst| == g.nsymbol && Exact(g, lam, fst) && Finished(g, lam, fst, states) && IsConfig(states, c)
    requires c.item in states[c.st].fws && t in states[c.st].fws[c.item]
    ensures Follows(g, states[c.st].bp, c.item, t)
  {
    var st := states[c.st];
    ClIs(g, lam, fst, states, c.st);
    assert Seeded(g, lam, fst, ItemsOf(st.cfp), SeedOf(c.st == 0, st.bp), c.item, t);
    if c.item in SeedOf(c.st == 0, st.bp) && t in SeedOf(c.st == 0, st.bp)[c.item] {
      StartFollows(g, c.item);
    } else {
      SpontaneousFollows(g, lam, fst, states, c.st, c.item.rule, t);
    }
  }

  lemma SpontaneousFollows(g: Grammar, lam: seq<bool>, fst: seq<set<nat>>, states: seq<State>, s: nat, r: nat, t: nat)
    requires g.Valid() && |lam| == |fst| == g.nsymbol && Exact(g, lam, fst) && Finished(g, lam, fst, states) && s < |states|
    requires Spontaneous(g, lam, fst, ItemsOf(states[s].cfp), r, t)
    ensures Follows(g, states[s].bp, Item(r, 0), t)
  {
    var it :| it in ItemsOf(states[s].cfp) && Calls(g, it, r) && InFirst(g, lam, fst, Rest(g, it), t);
    var spine := ConfigHasSpine(g, lam, fst, states, Config(s, it));
    FirstBegins(g, lam, fst, Rest(g, it), After(g, spine), t);
    FirstIsTerminal(g, lam, fst, Rest(g, it), t);
    CalledOn(g, spine, states[s].bp, it, r, t);
  }

  lemma StartFollows(g: Grammar, it: Item)
    requires g.Valid() && it in StartBasis(g)
    ensures Follows(g, StartBasis(g), it, 0)
  {
    DerivesRefl(g, [0]);
    assert Derives(g, [0], [0] + []) by { assert [0] + [] == [0]; }
    assert Before(g, []) + Done(g, it) == [];
    assert SpineTo(g, [], StartBasis(g), it) && CanBegin(g, After(g, []), 0);
  }

  lemma FirstIsTerminal(g: Grammar, lam: seq<bool>, fst: seq<set<nat>>, a: seq<nat>, t: nat)
    requires g.Valid() && |lam| == |fst| == g.nsymbol && Exact(g, lam, fst) && InFirst(g, lam, fst, a, t)
    ensures g.IsTerminal(t)
  {
    var j: nat :| Contributes(g, lam, fst, a, t, j);
    assert !g.IsTerminal(a[j]) ==> g.IsNonterminal(a[j]) && t in fst[a[j]];
  }

  /** What follows a configuration follows those that it is linked to. */
  lemma LinkFollows(g: Grammar, lam: seq<bool>, fst: seq<set<nat>>, states: seq<State>, c: Config, d: Config, t: nat)
    requires g.Valid() && |lam| == |fst| == g.nsymbol && Exact(g, lam, fst) && Finished(g, lam, fst, states) && IsConfig(states, c)
    requires Forward(g, states, c, d) && IsConfig(states, d) && ConfigFollows(g, states, c, t)
    ensures ConfigFollows(g, states, d, t)
  {
    ClIs(g, lam, fst, states, c.st);
    if IsBackLink(g, states, d, c) {
      BackLinkMoves(g, states, c, d);
      MovedFollows(g, states[c.st].bp, states[d.st].bp, c.item, t);
    } else {
      assert PassesOn(g, lam, c.item, d.item.rule) && d.item == Item(d.item.rule, 0);
      CalledFollows(g, lam, fst, states[c.st].bp, c.item, d.item.rule, t);
    }
  }

  ghost predicate MovesTo(g: Grammar, b: set<Item>, b': set<Item>, it: Item, a: nat)
  {
    HasNext(g, it, a) && b' == Kernel(g, ClosureOf(g, b), a)
  }

  lemma BackLinkMoves(g: Grammar, states: seq<State>, c: Config, d: Config)
    requires c.st < |states| && d.st < |states| && IsBackLink(g, states, d, c) && ShiftsOK(g, states, states[c.st])
    ensures d.item == Advance(c.item) && exists a: nat :: MovesTo(g, states[c.st].bp, states[d.st].bp, c.item, a)
  {
    var k :| 0 <= k < |states[c.st].ap| && states[c.st].ap[k].kind == SHIFT(d.st) && HasNext(g, c.item, states[c.st].ap[k].sp);
    assert ShiftOK(g, states, states[c.st], states[c.st].ap[k]);
    assert MovesTo(g, states[c.st].bp, states[d.st].bp, c.item, states[c.st].ap[k].sp);
  }

  lemma MovedFollows(g: Grammar, b: set<Item>, b': set<Item>, it: Item, t: nat)
    requires Follows(g, b, it, t) && exists a: nat :: MovesTo(g, b, b', it, a)
    ensures Follows(g, b', Advance(it), t)
  {
    var a: nat :| MovesTo(g, b, b', it, a);
    var spine :| SpineTo(g, spine, b, it) && CanBegin(g, After(g, spine), t);
    MovedTo(g, spine, b, it, a);
  }

  lemma CalledFollows(g: Grammar, lam: seq<bool>, fst: seq<set<nat>>, b: set<Item>, it: Item, r: nat, t: nat)
    requires g.Valid() && |lam| == |fst| == g.nsymbol && Exact(g, lam, fst) && Follows(g, b, it, t) && PassesOn(g, lam, it, r)
    ensures Follows(g, b, Item(r, 0), t)
  {
    var spine :| SpineTo(g, spine, b, it) && CanBegin(g, After(g, spine), t);
    EmptyBegins(g, lam, fst, Rest(g, it), After(g, spine), t);
    CalledOn(g, spine, b, it, r, t);
  }

  lemma CalledOn(g: Grammar, spine: seq<Item>, b: set<Item>, it: Item, r: nat, t: nat)
    requires SpineTo(g, spine, b, it) && Calls(g, it, r) && g.IsTerminal(t) && CanBegin(g, Rest(g, it) + After(g, spine), t)
    ensures Follows(g, b, Item(r, 0), t)
  {
    CalledTo(g, spine, b, it, r);
    assert SpineTo(g, spine + [it], b, Item(r, 0)) && CanBegin(g, After(g, spine + [it]), t);
  }

  lemma MovedTo(g: Grammar, spine: seq<Item>, b: set<Item>, it: Item, a: nat)
    requires SpineTo(g, spine, b, it) && HasNext(g, it, a)
    ensures SpineTo(g, spine, Kernel(g, ClosureOf(g, b), a), Advance(it))
  {
    assert Done(g, Advance(it)) == Done(g, it) + [a];
    assert Before(g, spine) + Done(g, Advance(it)) == Before(g, spine) + Done(g, it) + [a];
    BasisNext(g, Before(g, spine) + Done(g, it), a);
  }

  lemma {:induction false} ReachedFollows(g: Grammar, lam: seq<bool>, fst: seq<set<nat>>, states: seq<State>, fplp: Links, a: Config, c: Config, n: nat, t: nat)
    requires g.Valid() && |lam| == |fst| == g.nsymbol && Exact(g, lam, fst) && Finished(g, lam, fst, states) && LinksForward(g, states, fplp)
    requires LinksInside(states, fplp) && ReachIn(fplp, a, c, n) && ConfigFollows(g, states, a, t)
    ensures ConfigFollows(g, states, c, t)
    decreases n
  {
    if n != 0 {
      var b :| ReachIn(fplp, a, b, n - 1) && b in fplp && c in fplp[b];
      ReachedFollows(g, lam, fst, states, fplp, a, b, n - 1, t);
      assert Forward(g, states, b, c) && IsConfig(states, c);
      LinkFollows(g, lam, fst, states, b, c, t);
    }
  }

  ghost predicate ConfigFollows(g: Grammar, states: seq<State>, c: Config, t: nat)
  {
    IsConfig(states, c) && Follows(g, states[c.st].bp, c.item, t)
  }

  ghost predicate LinksInside(states: seq<State>, fplp: Links)
  {
    forall c, d | c in fplp && d in fplp[c] :: IsConfig(states, d)
  }

  /** Every lookahead that is found is one. */
  lemma FoundFollows(g: Grammar, lam: seq<bool>, fst: seq<set<nat>>, states: seq<State>, fplp: Links, init: Sets, fws: Sets, c: Config, t: nat)
    requires g.Valid() && |lam| == |fst| == g.nsymbol && Exact(g, lam, fst) && Finished(g, lam, fst, states) && Followed(g, states, fplp, init, fws)
    requires c in fws && t in fws[c]
    ensures IsConfig(states, c) && Follows(g, states[c.st].bp, c.item, t)
  {
    assert Arrives(fplp, init, c, t);
    var a :| a in init && t in init[a] && Reaches(fplp, a, c);
    var n: nat :| ReachIn(fplp, a, c, n);
    SeedFollows(g, lam, fst, states, a, t);
    ReachedFollows(g, lam, fst, states, fplp, a, c, n, t);
  }

  // ---------------------------------------------------------------------------
  // Nothing is missing
  // ---------------------------------------------------------------------------

  /** What the theorems of this part rely on, state by state. */
  ghost predicate Solved(g: Grammar, lam: seq<bool>, fst: seq<set<nat>>, states: seq<State>, la: Lookaheads)
  {
    && g.Valid() && |lam| == |fst| == g.nsymbol && Exact(g, lam, fst) && Finished(g, lam, fst, states) && |la| == |states|
    && (forall s: nat | s < |states| :: RowClosed(g, lam, fst, AutomatonOf(states), la, s))
    && (forall it | it in StartBasis(g) :: it in la[0] && 0 in la[0][it])
  }

  lemma FollowedIsSolved(g: Grammar, lam: seq<bool>, fst: seq<set<nat>>, states: seq<State>, fplp: Links, init: Sets, fws: Sets)
    requires g.Valid() && |lam| == |fst| == g.nsymbol && Exact(g, lam, fst) && Finished(g, lam, fst, states) && Followed(g, states, fplp, init, fws)
    ensures Solved(g, lam, fst, states, LaOf(states, fws))
  {
    forall s: nat | s < |states| ensures RowClosed(g, lam, fst, AutomatonOf(states), LaOf(states, fws), s) {
      LookaheadsAreClosed(g, lam, fst, states, fplp, init, fws, s);
    }
    forall it | it in StartBasis(g) ensures it in LaOf(states, fws)[0] && 0 in LaOf(states, fws)[0][it] {
      StartSeeded(g, lam, fst, states, fplp, init, fws, it);
    }
  }

  /** State `s` is reached over `x`, and has all of `from` as lookaheads of `it`. */
  ghost predicate SeesAt(g: Grammar, states: seq<State>, la: Lookaheads, s: nat, x: seq<nat>, it: Item, from: set<nat>)
  {
    s < |states| == |la| && states[s].bp == BasisAfter(g, x) && it in la[s] && from <= la[s][it]
  }

  /** The lookaheads at the start of a rule are passed along its right-hand side. */
  lemma {:induction false} WalkRule(g: Grammar, lam: seq<bool>, fst: seq<set<nat>>, states: seq<State>, la: Lookaheads, s: nat, x: seq<nat>, r: nat, d: nat, from: set<nat>)
      returns (s': nat)
    requires Solved(g, lam, fst, states, la) && r < |g.rules| && d <= |g.rules[r].rhs| && SeesAt(g, states, la, s, x, Item(r, 0), from)
    ensures SeesAt(g, states, la, s', x + Done(g, Item(r, d)), Item(r, d), from)
    decreases d
  {
    if d == 0 {
      s' := s;
      assert x + Done(g, Item(r, 0)) == x;
    } else {
      var p := WalkRule(g, lam, fst, states, la, s, x, r, d - 1, from);
      s' := WalkOne(g, lam, fst, states, la, p, x, r, d - 1, from);
    }
  }

  lemma WalkOne(g: Grammar, lam: seq<bool>, fst: seq<set<nat>>, states: seq<State>, la: Lookaheads, s: nat, x: seq<nat>, r: nat, d: nat, from: set<nat>) returns (s': nat)
    requires Solved(g, lam, fst, states, la) && r < |g.rules| && d < |g.rules[r].rhs| && SeesAt(g, states, la, s, x + Done(g, Item(r, d)), Item(r, d), from)
    ensures SeesAt(g, states, la, s', x + Done(g, Item(r, d + 1)), Item(r, d + 1), from)
  {
    var a, it := g.rules[r].rhs[d], Item(r, d);
    s' := MoveItem(g, lam, fst, states, la, s, it, a);
    DoneNext(g, x, r, d);
  }

  /** A configuration moves over `a` into the next state, with its lookaheads. */
  lemma MoveItem(g: Grammar, lam: seq<bool>, fst: seq<set<nat>>, states: seq<State>, la: Lookaheads, s: nat, it: Item, a: nat) returns (s': nat)
    requires Solved(g, lam, fst, states, la) && s < |states| && it in la[s] && HasNext(g, it, a)
    ensures s' < |states| && states[s'].bp == Kernel(g, ClosureOf(g, states[s].bp), a)
    ensures Item(it.rule, it.dot + 1) in la[s'] && la[s][it] <= la[s'][Item(it.rule, it.dot + 1)]
  {
    assert RowClosed(g, lam, fst, AutomatonOf(states), la, s);
    ItemMoves(g, lam, fst, states, la, s, it, a);
    s' := HasTarget(g, lam, fst, states, s, a);
    RowPasses(g, lam, fst, AutomatonOf(states), la, s, it, a, s');
  }

  lemma DoneNext(g: Grammar, x: seq<nat>, r: nat, d: nat)
    requires r < |g.rules| && d < |g.rules[r].rhs|
    ensures BasisAfter(g, x + Done(g, Item(r, d + 1))) == Kernel(g, ClosureOf(g, BasisAfter(g, x + Done(g, Item(r, d)))), g.rules[r].rhs[d])
  {
    var y := x + Done(g, Item(r, d));
    assert y + [g.rules[r].rhs[d]] == x + Done(g, Item(r, d + 1));
    BasisNext(g, y, g.rules[r].rhs[d]);
  }

  lemma ItemMoves(g: Grammar, lam: seq<bool>, fst: seq<set<nat>>, states: seq<State>, la: Lookaheads, s: nat, it: Item, a: nat)
    requires s < |states| && RowClosed(g, lam, fst, AutomatonOf(states), la, s) && it in la[s] && HasNext(g, it, a)
    ensures Kernel(g, ClosureOf(g, states[s].bp), a) != {}
  {
    assert it in ClosureOf(g, states[s].bp);
    assert Advance(it) in Kernel(g, ClosureOf(g, states[s].bp), a);
  }

  lemma RowPasses(g: Grammar, lam: seq<bool>, fst: seq<set<nat>>, m: Automaton, la: Lookaheads, s: nat, it: Item, a: nat, t: nat)
    requires RowClosed(g, lam, fst, m, la, s) && it in la[s] && HasNext(g, it, a) && m.Goes(s, a, t)
    ensures t < |la| && Item(it.rule, it.dot + 1) in la[t] && la[s][it] <= la[t][Item(it.rule, it.dot + 1)]
  {
    assert Advance(it) == Item(it.rule, it.dot + 1);
  }

  /** The terminals that can come next after a spine. */
  ghost function Next(g: Grammar, spine: seq<Item>): set<nat>
  {
    set t: nat | t < g.nterminal && CanBegin(g, After(g, spine), t)
  }

  /** Every terminal that can come next after a spine is a lookahead of the rules at its end. */
  lemma {:induction false} SpineIsSeen(g: Grammar, lam: seq<bool>, fst: seq<set<nat>>, states: seq<State>, la: Lookaheads, spine: seq<Item>, r: nat) returns (s: nat)
    requires Solved(g, lam, fst, states, la) && r < |g.rules| && IsSpine(g, spine, g.rules[r].lhs)
    ensures SeesAt(g, states, la, s, Before(g, spine), Item(r, 0), Next(g, spine))
    decreases |spine|
  {
    if spine == [] {
      s := 0;
      StartIsSeen(g, lam, fst, states, la, r);
    } else {
      var it, first := spine[|spine| - 1], spine[..|spine| - 1];
      var p := SpineIsSeen(g, lam, fst, states, la, first, it.rule);
      s := WalkRule(g, lam, fst, states, la, p, Before(g, first), it.rule, it.dot, Next(g, first));
      SpineGoesOn(g, lam, fst, states, la, spine, s, it, r);
    }
  }

  lemma StartIsSeen(g: Grammar, lam: seq<bool>, fst: seq<set<nat>>, states: seq<State>, la: Lookaheads, r: nat)
    requires Solved(g, lam, fst, states, la) && r < |g.rules| && g.rules[r].lhs == g.start
    ensures SeesAt(g, states, la, 0, Before(g, []), Item(r, 0), Next(g, []))
  {
    assert Item(r, 0) in StartBasis(g);
    forall t: nat | CanBegin(g, After(g, []), t) ensures t == 0 { OnlyEnd(g, t); }
  }

  lemma SpineGoesOn(g: Grammar, lam: seq<bool>, fst: seq<set<nat>>, states: seq<State>, la: Lookaheads, spine: seq<Item>, s: nat, it: Item, r: nat)
    requires Solved(g, lam, fst, states, la) && spine != [] && it == spine[|spine| - 1] && Calls(g, it, r)
    requires SeesAt(g, states, la, s, Before(g, spine[..|spine| - 1]) + Done(g, it), it, Next(g, spine[..|spine| - 1]))
    ensures SeesAt(g, states, la, s, Before(g, spine), Item(r, 0), Next(g, spine))
  {
    var first := spine[..|spine| - 1];
    CallIsIn(g, lam, fst, states, la, s, it, r);
    forall t: nat | t in Next(g, spine) ensures t in la[s][Item(r, 0)] {
      CallIsSeen(g, lam, fst, states, la, s, it, r, After(g, first), t);
    }
  }

  lemma CallIsIn(g: Grammar, lam: seq<bool>, fst: seq<set<nat>>, states: seq<State>, la: Lookaheads, s: nat, it: Item, r: nat)
    requires Solved(g, lam, fst, states, la) && s < |states| && it in la[s] && Calls(g, it, r)
    ensures Item(r, 0) in la[s]
  {
    assert RowClosed(g, lam, fst, AutomatonOf(states), la, s);
  }

  /** Nothing but `$` begins `$`. */
  lemma OnlyEnd(g: Grammar, t: nat)
    requires g.Valid() && CanBegin(g, [0], t)
    ensures t == 0
  {
    var z :| Derives(g, [0], [t] + z);
    var n: nat :| DerivesIn(g, [0], [t] + z, n);
    assert ([t] + z)[0] == t;
  }

  lemma CallIsSeen(g: Grammar, lam: seq<bool>, fst: seq<set<nat>>, states: seq<State>, la: Lookaheads, s: nat, it: Item, r: nat, rest: seq<nat>, t: nat)
    requires Solved(g, lam, fst, states, la) && s < |states| && it in la[s] && Calls(g, it, r)
    requires forall u: nat | g.IsTerminal(u) && CanBegin(g, rest, u) :: u in la[s][it]
    requires g.IsTerminal(t) && CanBegin(g, Rest(g, it) + rest, t)
    ensures Item(r, 0) in la[s] && t in la[s][Item(r, 0)]
  {
    assert RowClosed(g, lam, fst, AutomatonOf(states), la, s);
    BeginsSplits(g, lam, fst, Rest(g, it), rest, t);
    if !InFirst(g, lam, fst, Rest(g, it), t) { assert PassesOn(g, lam, it, r); }
  }

  /** Every lookahead is found, in the state that it belongs to. */
  lemma FollowsFound(g: Grammar, lam: seq<bool>, fst: seq<set<nat>>, states: seq<State>, la: Lookaheads, b: set<Item>, it: Item, t: nat) returns (s: nat)
    requires Solved(g, lam, fst, states, la) && Follows(g, b, it, t)
    ensures s < |states| && states[s].bp == b && it in la[s] && t in la[s][it]
  {
    var spine :| SpineTo(g, spine, b, it) && CanBegin(g, After(g, spine), t);
    var p := SpineIsSeen(g, lam, fst, states, la, spine, it.rule);
    s := WalkRule(g, lam, fst, states, la, p, Before(g, spine), it.rule, it.dot, Next(g, spine));
    assert it == Item(it.rule, it.dot);
  }

  // ---------------------------------------------------------------------------
  // Exactly the lookaheads
  // ---------------------------------------------------------------------------

  /**
   The follow set of a configuration is exactly what can follow it: the terminals that
   begin what stands to the right of a spine which leads to its state.
   */
  lemma LookaheadsExactly(g: Grammar, lam: seq<bool>, fst: seq<set<nat>>, states: seq<State>, fplp: Links, init: Sets, fws: Sets, s: nat, it: Item, t: nat)
    requires g.Valid() && |lam| == |fst| == g.nsymbol && Exact(g, lam, fst) && Finished(g, lam, fst, states) && Followed(g, states, fplp, init, fws) && s < |states|
    ensures it in LaOf(states, fws)[s] && t in LaOf(states, fws)[s][it] <==> Follows(g, states[s].bp, it, t)
  {
    if it in LaOf(states, fws)[s] && t in LaOf(states, fws)[s][it] {
      FoundFollows(g, lam, fst, states, fplp, init, fws, Config(s, it), t);
    }
    if Follows(g, states[s].bp, it, t) {
      FollowedIsSolved(g, lam, fst, states, fplp, init, fws);
      var p := FollowsFound(g, lam, fst, states, LaOf(states, fws), states[s].bp, it, t);
      assert p == s;
    }
  }

  // ---------------------------------------------------------------------------
  // Exactly the conflicts
  // ---------------------------------------------------------------------------

  /** A reduction that the grammar asks for is an action of its state. */
  lemma ReductionIsRaw(g: Grammar, lam: seq<bool>, fst: seq<set<nat>>, states: seq<State>, la: Lookaheads, b: set<Item>, r: nat, t: nat) returns (s: nat)
    requires Solved(g, lam, fst, states, la) && CanReduce(g, b, r, t)
    ensures s < |states| && states[s].bp == b && IsRaw(g, states[s], la[s], s == 0, Action(t, REDUCE(r)))
  {
    s := FollowsFound(g, lam, fst, states, la, b, Item(r, |g.rules[r].rhs|), t);
  }

  /** So is a shift. */
  lemma ShiftIsRaw(g: Grammar, lam: seq<bool>, fst: seq<set<nat>>, states: seq<State>, la: map<Item, set<nat>>, s: nat, t: nat) returns (a: Action)
    requires Finished(g, lam, fst, states) && s < |states| && CanShift(g, states[s].bp, t)
    ensures a.sp == t && a.kind.SHIFT? && IsRaw(g, states[s], la, s == 0, a)
  {
    var it :| it in ClosureOf(g, states[s].bp) && HasNext(g, it, t);
    assert Advance(it) in Kernel(g, ClosureOf(g, states[s].bp), t);
    assert EntryOK(g, lam, fst, states, s) && Built(g, states[s]) && HasShift(states[s], t);
    var k :| 0 <= k < |states[s].ap| && states[s].ap[k].sp == t;
    assert ShiftOK(g, states, states[s], states[s].ap[k]);
    a := states[s].ap[k];
  }

  lemma ConflictFreeIsAlone(g: Grammar, lam: seq<bool>, fst: seq<set<nat>>, states: seq<State>, la: Lookaheads, b: set<Item>, r: nat, t: nat)
    requires Solved(g, lam, fst, states, la) && NoConflicts(g, states, la) && CanReduce(g, b, r, t)
    ensures Alone(g, b, r, t)
  {
    var s := ReductionIsRaw(g, lam, fst, states, la, b, r, t);
    assert ConflictFree(g, states[s], la[s], s == 0);
    if CanShift(g, b, t) { var a := ShiftIsRaw(g, lam, fst, states, la[s], s, t); }
    forall q: nat | CanReduce(g, b, q, t) ensures q == r {
      var s' := ReductionIsRaw(g, lam, fst, states, la, b, q, t);
      assert s' == s;
    }
  }

  ghost predicate IsAsked(g: Grammar, st: State, a: Action)
  {
    && (a.kind.REDUCE? ==> CanReduce(g, st.bp, a.kind.rp, a.sp)) && (a.kind.SHIFT? ==> a in st.ap && CanShift(g, st.bp, a.sp))
    && (a.kind.SHIFT? || a.kind.REDUCE? || a == Action(g.start, ACCEPT)) && (a.sp == g.start ==> a.kind.ACCEPT?)
  }

  /** An action on a terminal that is not a shift is a reduction that the grammar asks for. */
  lemma RawIsAsked(g: Grammar, lam: seq<bool>, fst: seq<set<nat>>, states: seq<State>, fplp: Links, init: Sets, fws: Sets, s: nat, a: Action)
    requires g.Valid() && |lam| == |fst| == g.nsymbol && Exact(g, lam, fst) && Finished(g, lam, fst, states) && Followed(g, states, fplp, init, fws) && s < |states|
    requires IsRaw(g, states[s], LaOf(states, fws)[s], s == 0, a)
    ensures IsAsked(g, states[s], a)
  {
    RawLookahead(g, lam, fst, states, LaOf(states, fws)[s], s, a);
    if a.kind.REDUCE? {
      LookaheadsExactly(g, lam, fst, states, fplp, init, fws, s, Item(a.kind.rp, |g.rules[a.kind.rp].rhs|), a.sp);
    } else if a.kind.SHIFT? {
      ShiftIsAsked(g, lam, fst, states, s, a);
    }
  }

  lemma ShiftIsAsked(g: Grammar, lam: seq<bool>, fst: seq<set<nat>>, states: seq<State>, s: nat, a: Action)
    requires Finished(g, lam, fst, states) && s < |states| && a in states[s].ap
    ensures CanShift(g, states[s].bp, a.sp)
  {
    assert EntryOK(g, lam, fst, states, s);
    var k :| 0 <= k < |states[s].ap| && states[s].ap[k] == a;
    assert ShiftOK(g, states, states[s], a);
    var it :| it in ClosureOf(g, states[s].bp) && HasNext(g, it, a.sp);
  }

  lemma AloneIsConflictFree(g: Grammar, lam: seq<bool>, fst: seq<set<nat>>, states: seq<State>, fplp: Links, init: Sets, fws: Sets, s: nat, a: Action, b: Action)
    requires g.Valid() && |lam| == |fst| == g.nsymbol && Exact(g, lam, fst) && Finished(g, lam, fst, states) && Followed(g, states, fplp, init, fws) && s < |states|
    requires IsLalr(g) && a.sp == b.sp && IsRaw(g, states[s], LaOf(states, fws)[s], s == 0, a) && IsRaw(g, states[s], LaOf(states, fws)[s], s == 0, b)
    ensures a == b
  {
    RawIsAsked(g, lam, fst, states, fplp, init, fws, s, a);
    RawIsAsked(g, lam, fst, states, fplp, init, fws, s, b);
    if a.kind.REDUCE? { StateIsAlone(g, lam, fst, states, s, a.kind.rp, a.sp); }
    if b.kind.REDUCE? { StateIsAlone(g, lam, fst, states, s, b.kind.rp, b.sp); }
    ClIs(g, lam, fst, states, s);
    SameAction(g, states[s], a, b);
  }

  lemma SameAction(g: Grammar, st: State, a: Action, b: Action)
    requires IsAsked(g, st, a) && IsAsked(g, st, b) && a.sp == b.sp && forall j, k | 0 <= j < k < |st.ap| :: st.ap[j].sp != st.ap[k].sp
    requires (a.kind.REDUCE? ==> Alone(g, st.bp, a.kind.rp, a.sp)) && (b.kind.REDUCE? ==> Alone(g, st.bp, b.kind.rp, b.sp))
    ensures a == b
  {
  }

  lemma StateIsAlone(g: Grammar, lam: seq<bool>, fst: seq<set<nat>>, states: seq<State>, s: nat, r: nat, t: nat)
    requires Finished(g, lam, fst, states) && s < |states| && IsLalr(g) && CanReduce(g, states[s].bp, r, t)
    ensures Alone(g, states[s].bp, r, t)
  {
    var x := StateIsReached(g, lam, fst, states, s);
    assert CanReduce(g, BasisAfter(g, x), r, t);
  }

  /** A lookahead of a finished configuration comes from a sentential form: its rule can be reduced there before it. */
  lemma LookaheadDerives(g: Grammar, lam: seq<bool>, fst: seq<set<nat>>, states: seq<State>, fplp: Links, init: Sets, fws: Sets, s: nat, r: nat, t: nat)
    returns (x: seq<nat>, y: seq<nat>)
    requires g.Valid() && |lam| == |fst| == g.nsymbol && Exact(g, lam, fst) && Finished(g, lam, fst, states) && Followed(g, states, fplp, init, fws)
    requires s < |states| && r < |g.rules| && Item(r, |g.rules[r].rhs|) in LaOf(states, fws)[s] && t in LaOf(states, fws)[s][Item(r, |g.rules[r].rhs|)]
    ensures BasisAfter(g, x + g.rules[r].rhs) == states[s].bp && Derives(g, [g.start, 0], x + [g.rules[r].lhs, t] + y)
  {
    LookaheadsExactly(g, lam, fst, states, fplp, init, fws, s, Item(r, |g.rules[r].rhs|), t);
    x, y := FollowsDerives(g, states[s].bp, r, t);
  }

  /** The generator finds a conflict exactly if the grammar is not LALR(1). */
  lemma ConflictsExactly(g: Grammar, lam: seq<bool>, fst: seq<set<nat>>, states: seq<State>, fplp: Links, init: Sets, fws: Sets)
    requires g.Valid() && |lam| == |fst| == g.nsymbol && Exact(g, lam, fst) && Finished(g, lam, fst, states) && Followed(g, states, fplp, init, fws)
    ensures NoConflicts(g, states, LaOf(states, fws)) <==> IsLalr(g)
  {
    FollowedIsSolved(g, lam, fst, states, fplp, init, fws);
    var la := LaOf(states, fws);
    if NoConflicts(g, states, la) {
      forall x: seq<nat>, t: nat, r: nat | CanReduce(g, BasisAfter(g, x), r, t) ensures Alone(g, BasisAfter(g, x), r, t) {
        ConflictFreeIsAlone(g, lam, fst, states, la, BasisAfter(g, x), r, t);
      }
    }
    if IsLalr(g) {
      forall s: nat | s < |states| ensures ConflictFree(g, states[s], la[s], s == 0) {
        forall a, b | IsRaw(g, states[s], la[s], s == 0, a) && IsRaw(g, states[s], la[s], s == 0, b) && a.sp == b.sp ensures a == b {
          AloneIsConflictFree(g, lam, fst, states, fplp, init, fws, s, a, b);
        }
      }
    }
  }
}
