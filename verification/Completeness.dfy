/**
 Completeness of the parser: with lookahead sets that are closed under propagation
 and a table that has every shift and every reduction they ask for, each sentence of
 the grammar is accepted.
 */
module Completeness {
  import opened Grammars
  import opened FirstSets
  import opened Items
  import opened Configlist
  import opened Machine
  import opened Soundness

  /** The follow set of every configuration, state by state. */
  type Lookaheads = seq<map<Item, set<nat>>>

  /** Nothing can be added to the follow sets of state `s`, nor to those it feeds. */
  ghost predicate RowClosed(g: Grammar, lam: seq<bool>, fst: seq<set<nat>>, m: Automaton, la: Lookaheads, s: nat)
  {
    && s < |la| == |m.go|
    && la[s].Keys == m.Cl(g, s)
    && (forall it, x: nat, t: nat | it in la[s] && HasNext(g, it, x) && m.Goes(s, x, t) ::
          t < |la| && Advance(it) in la[t] && la[s][it] <= la[t][Advance(it)])
    && (forall it, r: nat | it in la[s] && Calls(g, it, r) :: Item(r, 0) in la[s])
    && (forall it, r: nat, t: nat | it in la[s] && Calls(g, it, r) && InFirst(g, lam, fst, Rest(g, it), t) :: t in la[s][Item(r, 0)])
    && (forall it, r: nat | it in la[s] && PassesOn(g, lam, it, r) :: la[s][it] <= la[s][Item(r, 0)])
  }

  ghost predicate RowComplete(g: Grammar, m: Automaton, la: Lookaheads, tab: Table, s: nat)
  {
    && s < |la| == |m.go| == |tab|
    && (forall x: nat | x in m.go[s] :: x in tab[s] && tab[s][x] == Shift(m.go[s][x]))
    && (forall it, a: nat | it in la[s] && Complete(g, it) && a in la[s][it] :: a in tab[s] && tab[s][a] == Reduce(it.rule))
  }

  ghost predicate Setup(g: Grammar, lam: seq<bool>, fst: seq<set<nat>>, m: Automaton, la: Lookaheads, tab: Table)
  {
    && g.Valid() && |lam| == |fst| == g.nsymbol && Exact(g, lam, fst)
    && AutomatonOK(g, m) && |la| == |m.bases| == |tab|
    && (forall s: nat | s < |la| :: RowClosed(g, lam, fst, m, la, s))
    && (forall s: nat | s < |la| :: RowComplete(g, m, la, tab, s))
    && (forall it | it in StartBasis(g) :: it in la[0] && 0 in la[0][it])
    && g.start in tab[0] && tab[0][g.start] == Accept
  }

  // ---------------------------------------------------------------------------
  // Lookaheads inside a right-hand side
  // ---------------------------------------------------------------------------

  lemma {:induction false} YieldIsSentence(g: Grammar, t: Tree)
    requires ValidTree(g, t)
    ensures IsSentence(g, Yield(t))
    decreases t, 0
  {
    match t
    case Leaf(x) =>
    case Node(r, kids) => YieldAllIsSentence(g, kids);
  }

  lemma {:induction false} YieldAllIsSentence(g: Grammar, ts: seq<Tree>)
    requires forall i | 0 <= i < |ts| :: ValidTree(g, ts[i])
    ensures IsSentence(g, YieldAll(ts))
    decreases ts
  {
    if ts != [] {
      YieldIsSentence(g, ts[0]);
      YieldAllIsSentence(g, ts[1..]);
    }
  }

  lemma TreeBegins(g: Grammar, lam: seq<bool>, fst: seq<set<nat>>, t: Tree)
    requires g.Valid() && |lam| == |fst| == g.nsymbol && Exact(g, lam, fst)
    requires ValidTree(g, t)
    ensures Root(g, t) < g.nsymbol
    ensures Yield(t) == [] ==> lam[Root(g, t)]
    ensures Yield(t) != [] ==> if g.IsTerminal(Root(g, t)) then Yield(t)[0] == Root(g, t) else Yield(t)[0] in fst[Root(g, t)]
  {
    TreeDerives(g, t);
    YieldIsSentence(g, t);
    if t.Node? {
      assert g.ValidRule(g.rules[t.rule]);
      if Yield(t) != [] {
        assert Yield(t) == [Yield(t)[0]] + Yield(t)[1..];
        assert Begins(g, Root(g, t), Yield(t)[0]);
      }
    }
  }

  /** The terminals that follow a parsed symbol: the first symbol of what is left, or nothing if all of it vanishes. */
  lemma {:induction false} ForestBegins(g: Grammar, lam: seq<bool>, fst: seq<set<nat>>, ts: seq<Tree>, roots: seq<nat>)
    requires g.Valid() && |lam| == |fst| == g.nsymbol && Exact(g, lam, fst)
    requires ValidForest(g, ts, roots)
    ensures if YieldAll(ts) == [] then AllLambda(lam, roots) else InFirst(g, lam, fst, roots, YieldAll(ts)[0])
  {
    if ts != [] {
      TreeBegins(g, lam, fst, ts[0]);
      ForestBegins(g, lam, fst, ts[1..], roots[1..]);
      assert YieldAll(ts) == Yield(ts[0]) + YieldAll(ts[1..]);
      if Yield(ts[0]) != [] {
        assert Contributes(g, lam, fst, roots, YieldAll(ts)[0], 0);
      } else if YieldAll(ts[1..]) != [] {
        assert YieldAll(ts) == YieldAll(ts[1..]);
        FirstBehindLambda(g, lam, fst, roots, YieldAll(ts)[0]);
      } else {
        assert roots == [roots[0]] + roots[1..];
      }
    }
  }

  lemma FirstBehindLambda(g: Grammar, lam: seq<bool>, fst: seq<set<nat>>, roots: seq<nat>, c: nat)
    requires |lam| == |fst| && roots != [] && AllLambda(lam, [roots[0]]) && InFirst(g, lam, fst, roots[1..], c)
    ensures InFirst(g, lam, fst, roots, c)
  {
    var j: nat :| Contributes(g, lam, fst, roots[1..], c, j);
    assert roots[..j + 1] == [roots[0]] + roots[1..][..j];
    assert Contributes(g, lam, fst, roots, c, j + 1);
  }

  /** The lookahead that follows the first subtree is in the follow set of the rule used for it. */
  lemma CalleeLookahead(g: Grammar, lam: seq<bool>, fst: seq<set<nat>>, m: Automaton, la: Lookaheads, tab: Table,
                        s: nat, it: Item, ts: seq<Tree>, a: nat, r0: nat)
    requires Setup(g, lam, fst, m, la, tab) && s < |la| && it in la[s] && a in la[s][it] && Calls(g, it, r0)
    requires ValidForest(g, ts, Rest(g, it))
    ensures Item(r0, 0) in la[s] && (YieldAll(ts) + [a])[0] in la[s][Item(r0, 0)]
  {
    ForestBegins(g, lam, fst, ts, Rest(g, it));
    FollowerIsIn(g, lam, fst, m, la, s, it, YieldAll(ts), a, r0);
  }

  lemma FollowerIsIn(g: Grammar, lam: seq<bool>, fst: seq<set<nat>>, m: Automaton, la: Lookaheads, s: nat, it: Item, w: seq<nat>, a: nat, r0: nat)
    requires RowClosed(g, lam, fst, m, la, s) && it in la[s] && a in la[s][it] && Calls(g, it, r0)
    requires if w == [] then AllLambda(lam, Rest(g, it)) else InFirst(g, lam, fst, Rest(g, it), w[0])
    ensures Item(r0, 0) in la[s] && (w + [a])[0] in la[s][Item(r0, 0)]
  {
    if w == [] { assert PassesOn(g, lam, it, r0); }
  }

  // ---------------------------------------------------------------------------
  // Parsing a tree
  // ---------------------------------------------------------------------------

  lemma ShiftLeaf(g: Grammar, lam: seq<bool>, fst: seq<set<nat>>, m: Automaton, la: Lookaheads, tab: Table,
                  stack: Stack, s: nat, x: nat, input: seq<nat>)
    requires Setup(g, lam, fst, m, la, tab) && s < |la| && TopOf(stack) == St(s) && x in m.go[s]
    ensures Leads(g, tab, stack, [x] + input, 1, Push(stack, St(m.go[s][x]), x), input)
  {
    assert RowComplete(g, m, la, tab, s);
    assert ([x] + input)[1..] == input;
    assert Leads(g, tab, Push(stack, St(m.go[s][x]), x), input, 0, Push(stack, St(m.go[s][x]), x), input);
  }

  /** Once its right-hand side is on the stack, the rule is reduced and its left-hand side is pushed. */
  lemma ReduceNode(g: Grammar, lam: seq<bool>, fst: seq<set<nat>>, m: Automaton, la: Lookaheads, tab: Table,
                   stack: Stack, s: nat, stack': Stack, s': nat, r: nat, a: nat, rest: seq<nat>)
    requires Setup(g, lam, fst, m, la, tab) && s < |la| && s' < |la| && TopOf(stack) == St(s) && TopOf(stack') == St(s')
    requires r < |g.rules| && |stack'| == |stack| + |g.rules[r].rhs| && stack'[..|stack|] == stack
    requires Item(r, |g.rules[r].rhs|) in la[s'] && a in la[s'][Item(r, |g.rules[r].rhs|)]
    requires g.rules[r].lhs in m.go[s]
    ensures Leads(g, tab, stack', [a] + rest, 1, Push(stack, St(m.go[s][g.rules[r].lhs]), g.rules[r].lhs), [a] + rest)
  {
    assert RowComplete(g, m, la, tab, s') && RowComplete(g, m, la, tab, s);
    assert TokenAct(g, tab, TopOf(stack'), a) == Reduce(r);
    ReduceShape(g, tab, stack', r, |stack| - 1, s);
    var pushed := Push(stack, St(m.go[s][g.rules[r].lhs]), g.rules[r].lhs);
    assert StepOn(g, tab, stack', a) == Reduced(pushed, r);
    assert Leads(g, tab, pushed, [a] + rest, 0, pushed, [a] + rest);
  }

  /** Moving the dot of `it` over the symbol just pushed. */
  lemma AdvanceItem(g: Grammar, lam: seq<bool>, fst: seq<set<nat>>, m: Automaton, la: Lookaheads, tab: Table, s: nat, it: Item, x: nat, a: nat)
    requires Setup(g, lam, fst, m, la, tab) && s < |la| && it in la[s] && a in la[s][it] && HasNext(g, it, x)
    ensures x in m.go[s] && m.go[s][x] < |la| && Advance(it) in la[m.go[s][x]] && a in la[m.go[s][x]][Advance(it)]
  {
    assert RowClosed(g, lam, fst, m, la, s);
    assert StateGoOK(g, m, s);
    AdvanceGoes(g, lam, fst, m, la, s, it, x);
    assert m.Goes(s, x, m.go[s][x]);
  }

  lemma AdvanceGoes(g: Grammar, lam: seq<bool>, fst: seq<set<nat>>, m: Automaton, la: Lookaheads, s: nat, it: Item, x: nat)
    requires RowClosed(g, lam, fst, m, la, s) && StateGoOK(g, m, s) && it in la[s] && HasNext(g, it, x)
    ensures x in m.go[s]
  {
    KernelItems(g, m.Cl(g, s), x);
    assert Advance(it) in Kernel(g, m.Cl(g, s), x);
  }

  /** The machine reads the yield of a tree and pushes its root. */
  lemma {:induction false} ParseTree(g: Grammar, lam: seq<bool>, fst: seq<set<nat>>, m: Automaton, la: Lookaheads, tab: Table,
                                     t: Tree, stack: Stack, s: nat, input: seq<nat>) returns (k: nat)
    requires Setup(g, lam, fst, m, la, tab) && s < |la| && TopOf(stack) == St(s)
    requires ValidTree(g, t) && Root(g, t) in m.go[s] && input != []
    requires t.Node? ==> Item(t.rule, 0) in la[s] && input[0] in la[s][Item(t.rule, 0)]
    ensures Leads(g, tab, stack, Yield(t) + input, k, Push(stack, St(m.go[s][Root(g, t)]), Root(g, t)), input)
    decreases t, 0
  {
    match t {
      case Leaf(x) =>
        k := 1;
        ShiftLeaf(g, lam, fst, m, la, tab, stack, s, x, input);
      case Node(r, kids) =>
        assert g.rules[r].rhs[0..] == g.rules[r].rhs;
        var stack', s';
        k, stack', s' := ParseForest(g, lam, fst, m, la, tab, kids, r, 0, stack, s, input);
        ReduceNode(g, lam, fst, m, la, tab, stack, s, stack', s', r, input[0], input[1..]);
        assert [input[0]] + input[1..] == input;
        LeadsTrans(g, tab, stack, Yield(t) + input, k, stack', input, 1, Push(stack, St(m.go[s][Root(g, t)]), Root(g, t)), input);
        k := k + 1;
    }
  }

  /** The subtrees `ts` of rule `r` have been read, and the dot is at the end of the rule. */
  ghost predicate ForestRead(g: Grammar, la: Lookaheads, tab: Table, ts: seq<Tree>, r: nat, stack: Stack, input: seq<nat>, k: nat, stack': Stack, s': nat)
    requires r < |g.rules| && input != []
  {
    && Leads(g, tab, stack, YieldAll(ts) + input, k, stack', input)
    && |stack'| == |stack| + |ts| && stack'[..|stack|] == stack
    && s' < |la| && TopOf(stack') == St(s')
    && Item(r, |g.rules[r].rhs|) in la[s'] && input[0] in la[s'][Item(r, |g.rules[r].rhs|)]
  }

  /** After the first subtree come the others. */
  lemma JoinForest(g: Grammar, la: Lookaheads, tab: Table, ts: seq<Tree>, r: nat, stack: Stack, input: seq<nat>,
                   k1: nat, stack1: Stack, k2: nat, stack': Stack, s': nat)
    requires r < |g.rules| && input != [] && ts != [] && |stack1| == |stack| + 1 && stack1[..|stack|] == stack
    requires Leads(g, tab, stack, Yield(ts[0]) + (YieldAll(ts[1..]) + input), k1, stack1, YieldAll(ts[1..]) + input)
    requires ForestRead(g, la, tab, ts[1..], r, stack1, input, k2, stack', s')
    ensures ForestRead(g, la, tab, ts, r, stack, input, k1 + k2, stack', s')
  {
    var rest := YieldAll(ts[1..]) + input;
    assert YieldAll(ts) + input == Yield(ts[0]) + rest;
    LeadsTrans(g, tab, stack, YieldAll(ts) + input, k1, stack1, rest, k2, stack', input);
    assert stack'[..|stack|] == stack'[..|stack1|][..|stack|] == stack;
  }

  /** The next subtree can be read: its root has a goto, and what follows it is in the lookahead of its rule. */
  lemma NextSubtree(g: Grammar, lam: seq<bool>, fst: seq<set<nat>>, m: Automaton, la: Lookaheads, tab: Table,
                    ts: seq<Tree>, r: nat, d: nat, s: nat, input: seq<nat>)
    requires Setup(g, lam, fst, m, la, tab) && s < |la| && input != [] && ts != []
    requires r < |g.rules| && d < |g.rules[r].rhs| && Item(r, d) in la[s] && input[0] in la[s][Item(r, d)]
    requires ValidForest(g, ts, g.rules[r].rhs[d..])
    ensures ValidTree(g, ts[0]) && Root(g, ts[0]) == g.rules[r].rhs[d] && ValidForest(g, ts[1..], g.rules[r].rhs[d + 1..])
    ensures ts[0].Node? ==> var rest := YieldAll(ts[1..]) + input; Item(ts[0].rule, 0) in la[s] && rest[0] in la[s][Item(ts[0].rule, 0)]
  {
    var it := Item(r, d);
    assert g.rules[r].rhs[d..][1..] == g.rules[r].rhs[d + 1..] == Rest(g, it);
    assert g.rules[r].rhs[d..][0] == g.rules[r].rhs[d];
    if ts[0].Node? {
      CalleeLookahead(g, lam, fst, m, la, tab, s, it, ts[1..], input[0], ts[0].rule);
      assert (YieldAll(ts[1..]) + input)[0] == (YieldAll(ts[1..]) + [input[0]])[0];
    }
  }

  /** The machine reads the yields of the subtrees that remain after the dot of an item, one by one. */
  lemma {:induction false} ParseForest(g: Grammar, lam: seq<bool>, fst: seq<set<nat>>, m: Automaton, la: Lookaheads, tab: Table,
                                       ts: seq<Tree>, r: nat, d: nat, stack: Stack, s: nat, input: seq<nat>) returns (k: nat, stack': Stack, s': nat)
    requires Setup(g, lam, fst, m, la, tab) && s < |la| && TopOf(stack) == St(s) && input != []
    requires r < |g.rules| && d <= |g.rules[r].rhs| && Item(r, d) in la[s] && input[0] in la[s][Item(r, d)]
    requires ValidForest(g, ts, g.rules[r].rhs[d..])
    ensures ForestRead(g, la, tab, ts, r, stack, input, k, stack', s')
    decreases ts
  {
    if ts == [] {
      k, stack', s' := 0, stack, s;
      assert YieldAll(ts) + input == input;
    } else {
      var x := g.rules[r].rhs[d];
      NextSubtree(g, lam, fst, m, la, tab, ts, r, d, s, input);
      AdvanceItem(g, lam, fst, m, la, tab, s, Item(r, d), x, input[0]);
      var k1 := ParseTree(g, lam, fst, m, la, tab, ts[0], stack, s, YieldAll(ts[1..]) + input);
      var s1 := m.go[s][x];
      var stack1 := Push(stack, St(s1), x);
      var k2;
      k2, stack', s' := ParseForest(g, lam, fst, m, la, tab, ts[1..], r, d + 1, stack1, s1, input);
      JoinForest(g, la, tab, ts, r, stack, input, k1, stack1, k2, stack', s');
      k := k1 + k2;
    }
  }

  /** The start rule at the bottom of the stack: reducing it accepts. */
  lemma AcceptStart(g: Grammar, lam: seq<bool>, fst: seq<set<nat>>, m: Automaton, la: Lookaheads, tab: Table, stack: Stack, s: nat, r: nat)
    requires Setup(g, lam, fst, m, la, tab) && s < |la| && TopOf(stack) == St(s)
    requires r < |g.rules| && g.rules[r].lhs == g.start && |stack| == 1 + |g.rules[r].rhs| && stack[..1] == Init
    requires Item(r, |g.rules[r].rhs|) in la[s] && 0 in la[s][Item(r, |g.rules[r].rhs|)]
    ensures Run(g, tab, stack, [0], 1).Some?
  {
    assert RowComplete(g, m, la, tab, s);
    assert TokenAct(g, tab, TopOf(stack), 0) == Reduce(r);
    assert stack[0] == stack[..1][0];
    ReduceShape(g, tab, stack, r, 0, 0);
    assert StepOn(g, tab, stack, 0) == Accepted(r);
  }

  /** Parser completeness: what the grammar derives, the machine accepts. */
  lemma ParserComplete(g: Grammar, lam: seq<bool>, fst: seq<set<nat>>, m: Automaton, la: Lookaheads, tab: Table, w: seq<nat>)
    requires Setup(g, lam, fst, m, la, tab)
    requires IsSentence(g, w) && Derives(g, [g.start], w)
    ensures Accepts(g, tab, w)
  {
    var n: nat :| DerivesIn(g, [g.start], w, n);
    var ts := ForestOfDerivation(g, [g.start], w, n);
    var t := ts[0];
    assert ts[1..] == [] && YieldAll(ts) == Yield(t) + YieldAll(ts[1..]);
    assert Root(g, t) == g.start && t.Node?;
    assert YieldAll(t.kids) == w;
    var r := t.rule;
    assert Item(r, 0) in StartBasis(g);
    assert g.rules[r].rhs[0..] == g.rules[r].rhs;
    var k, stack, s := ParseForest(g, lam, fst, m, la, tab, t.kids, r, 0, Init, 0, [0]);
    AcceptStart(g, lam, fst, m, la, tab, stack, s, r);
    LeadsRuns(g, tab, Init, w + [0], k, stack, [0], 1);
  }
}
