/**
 Soundness of the parser: for every table whose entries are justified by the LR(0)
 automaton, the stack always spells a path of the automaton, every reduction pops
 exactly its right-hand side, no assertion of the driver is ever violated, and every
 accepted token string is derivable from the start symbol.
 */
module Soundness {
  import opened Grammars
  import opened Items
  import opened Machine

  /** The LR(0) automaton: the basis and the transitions of every state. */
  datatype Automaton = Automaton(bases: seq<set<Item>>, go: seq<map<nat, nat>>)
  {
    ghost function Cl(g: Grammar, s: nat): set<Item>
    {
      if s < |bases| then ClosureOf(g, bases[s]) else {}
    }

    predicate Goes(s: nat, x: nat, t: nat)
    {
      s < |go| && x in go[s] && go[s][x] == t
    }
  }

  ghost predicate StateGoOK(g: Grammar, m: Automaton, s: nat)
  {
    && s < |m.bases| == |m.go|
    && ItemSet(g, m.bases[s])
    && (forall x: nat | x in m.go[s] :: m.go[s][x] < |m.bases| && m.bases[m.go[s][x]] == Kernel(g, m.Cl(g, s), x))
    && (forall x: nat :: x in m.go[s] <==> Kernel(g, m.Cl(g, s), x) != {})
  }

  ghost predicate AutomatonOK(g: Grammar, m: Automaton)
  {
    && |m.bases| == |m.go| > 0
    && m.bases[0] == StartBasis(g)
    && forall s: nat | s < |m.bases| :: StateGoOK(g, m, s)
  }

  /** `r` can be reduced in state `s`. */
  ghost predicate Reducible(g: Grammar, m: Automaton, s: nat, r: nat)
  {
    r < |g.rules| && Item(r, |g.rules[r].rhs|) in m.Cl(g, s)
  }

  /** `r` may be the second half of a shift-reduce into state `t`: it pops at least the symbol just shifted. */
  ghost predicate Pending(g: Grammar, m: Automaton, t: nat, r: nat)
  {
    Reducible(g, m, t, r) && g.rules[r].lhs != g.start && g.rules[r].rhs != []
  }

  /** The entry for symbol `x` in state `s` is justified by the automaton. */
  ghost predicate EntrySound(g: Grammar, m: Automaton, s: nat, x: nat, a: Act)
  {
    match a
    case Shift(t) => exists y: nat :: Derives(g, [y], [x]) && m.Goes(s, y, t)
    case ShiftReduce(r) => exists y: nat, t: nat :: Derives(g, [y], [x]) && m.Goes(s, y, t) && Pending(g, m, t, r)
    case Reduce(r) => Reducible(g, m, s, r) && (g.rules[r].lhs == g.start ==> x == 0)
    case Accept => s == 0 && x == g.start
    case Error => true
  }

  ghost predicate RowSound(g: Grammar, m: Automaton, tab: Table, s: nat)
  {
    && s < |tab|
    && (forall x: nat | x in tab[s] :: EntrySound(g, m, s, x, tab[s][x]))
    && (g.Default() in tab[s] ==> tab[s][g.Default()].Reduce?)
    && (forall x: nat | g.IsNonterminal(x) && s < |m.go| && x in m.go[s] :: x in tab[s] && (tab[s][x].Shift? || tab[s][x].ShiftReduce?))
  }

  ghost predicate TableSound(g: Grammar, m: Automaton, tab: Table)
  {
    && |tab| == |m.bases|
    && (forall s: nat | s < |tab| :: RowSound(g, m, tab, s))
    && |tab| > 0 && g.start in tab[0] && tab[0][g.start] == Accept
  }

  // ---------------------------------------------------------------------------
  // Paths of the automaton
  // ---------------------------------------------------------------------------

  /** The states `q` are visited by reading the symbols `p` from the start state. */
  ghost predicate OnPath(m: Automaton, q: seq<nat>, p: seq<nat>)
  {
    |q| == |p| + 1 && q[0] == 0 && forall k | 0 <= k < |p| :: m.Goes(q[k], p[k], q[k + 1])
  }

  lemma PathPrefix(m: Automaton, q: seq<nat>, p: seq<nat>, k: nat)
    requires OnPath(m, q, p) && k <= |p|
    ensures OnPath(m, q[..k + 1], p[..k])
  {
  }

  lemma PathExtend(m: Automaton, q: seq<nat>, p: seq<nat>, x: nat, t: nat)
    requires OnPath(m, q, p) && m.Goes(q[|p|], x, t)
    ensures OnPath(m, q + [t], p + [x])
  {
  }

  lemma PathStates(g: Grammar, m: Automaton, q: seq<nat>, p: seq<nat>, k: nat)
    requires AutomatonOK(g, m) && OnPath(m, q, p) && k <= |p|
    ensures q[k] < |m.bases|
  {
    if k > 0 {
      PathStates(g, m, q, p, k - 1);
      assert StateGoOK(g, m, q[k - 1]) && m.Goes(q[k - 1], p[k - 1], q[k]);
    }
  }

  /** A basis item of the last state of a path, and what it says about the last symbol read. */
  lemma BasisItem(g: Grammar, m: Automaton, q: seq<nat>, p: seq<nat>, it: Item)
    requires AutomatonOK(g, m) && OnPath(m, q, p) && q[|p|] < |m.bases| && it in m.bases[q[|p|]]
    ensures |p| == 0 ==> it.dot == 0 && it.rule < |g.rules| && g.rules[it.rule].lhs == g.start
    ensures |p| > 0 ==> it.dot > 0 && Item(it.rule, it.dot - 1) in m.Cl(g, q[|p| - 1]) && HasNext(g, Item(it.rule, it.dot - 1), p[|p| - 1])
  {
    if |p| > 0 {
      var s, x := q[|p| - 1], p[|p| - 1];
      PathStates(g, m, q, p, |p| - 1);
      assert StateGoOK(g, m, s) && m.Goes(s, x, q[|p|]);
      KernelItems(g, m.Cl(g, s), x);
    }
  }

  /** An item with its dot at `d` means that the last `d` symbols read are the first `d` of its right-hand side. */
  lemma {:induction false} ItemOnPath(g: Grammar, m: Automaton, q: seq<nat>, p: seq<nat>, r: nat, d: nat)
    requires AutomatonOK(g, m) && OnPath(m, q, p) && Item(r, d) in m.Cl(g, q[|p|])
    ensures r < |g.rules| && d <= |g.rules[r].rhs| && d <= |p|
    ensures p[|p| - d..] == g.rules[r].rhs[..d]
    ensures Item(r, 0) in m.Cl(g, q[|p| - d])
    decreases d
  {
    PathStates(g, m, q, p, |p|);
    assert StateGoOK(g, m, q[|p|]);
    var b := m.bases[q[|p|]];
    ClosureOfIsClosure(g, b);
    if d > 0 {
      ClosureOrigin(g, b, Item(r, d));
      BasisItem(g, m, q, p, Item(r, d));
      PathPrefix(m, q, p, |p| - 1);
      var p' := p[..|p| - 1];
      ItemOnPath(g, m, q[..|p|], p', r, d - 1);
      assert p[|p| - d..] == p'[|p'| - (d - 1)..] + [p[|p| - 1]];
      assert g.rules[r].rhs[..d] == g.rules[r].rhs[..d - 1] + [g.rules[r].rhs[d - 1]];
    }
  }

  /** An initial item in a state on the path: its left-hand side can be read there, or it is a start rule at the bottom. */
  lemma InitialItem(g: Grammar, m: Automaton, q: seq<nat>, p: seq<nat>, r: nat)
    requires g.Valid() && AutomatonOK(g, m) && OnPath(m, q, p) && Item(r, 0) in m.Cl(g, q[|p|])
    ensures r < |g.rules| && q[|p|] < |m.go|
    ensures g.rules[r].lhs == g.start ==> |p| == 0
    ensures g.rules[r].lhs != g.start ==> g.rules[r].lhs in m.go[q[|p|]]
  {
    var s := q[|p|];
    PathStates(g, m, q, p, |p|);
    assert StateGoOK(g, m, s);
    ClosureOfIsClosure(g, m.bases[s]);
    ClosureOrigin(g, m.bases[s], Item(r, 0));
    if Item(r, 0) in m.bases[s] {
      BasisItem(g, m, q, p, Item(r, 0));
    } else {
      var it0 :| it0 in m.Cl(g, s) && Calls(g, it0, r);
      CalledItem(g, m, s, it0, r);
    }
  }

  lemma CalledItem(g: Grammar, m: Automaton, s: nat, it0: Item, r: nat)
    requires g.Valid() && StateGoOK(g, m, s) && it0 in m.Cl(g, s) && Calls(g, it0, r)
    ensures r < |g.rules| && g.rules[r].lhs != g.start && g.rules[r].lhs in m.go[s]
  {
    KernelItems(g, m.Cl(g, s), g.rules[r].lhs);
    assert Advance(it0) in Kernel(g, m.Cl(g, s), g.rules[r].lhs);
    assert g.ValidRule(g.rules[it0.rule]);
    assert g.rules[it0.rule].rhs[it0.dot] != g.start;
  }

  // ---------------------------------------------------------------------------
  // What every iteration of the parser loop keeps
  // ---------------------------------------------------------------------------

  /** The stack holds the states `q` of a path; only its top may be a pending reduction. */
  ghost predicate StackOK(g: Grammar, m: Automaton, stack: Stack, q: seq<nat>, p: seq<nat>)
  {
    && OnPath(m, q, p)
    && |stack| == |q|
    && (forall k | 0 <= k < |p| :: stack[k].top == St(q[k]))
    && (stack[|p|].top == St(q[|p|]) || (stack[|p|].top.Red? && Pending(g, m, q[|p|], stack[|p|].top.rule)))
  }

  /** A reducible rule: the top of the stack spells exactly its right-hand side. */
  lemma PopRhs(g: Grammar, m: Automaton, stack: Stack, q: seq<nat>, p: seq<nat>, r: nat) returns (k: nat)
    requires g.Valid() && AutomatonOK(g, m) && StackOK(g, m, stack, q, p)
    requires Reducible(g, m, q[|p|], r) && (stack[|p|].top.Red? ==> g.rules[r].rhs != [])
    ensures k == |p| - |g.rules[r].rhs| && p == p[..k] + g.rules[r].rhs
    ensures OnPath(m, q[..k + 1], p[..k]) && stack[k].top == St(q[k])
    ensures q[k] < |m.bases| == |m.go|
    ensures g.rules[r].lhs == g.start ==> k == 0
    ensures g.rules[r].lhs != g.start ==> g.rules[r].lhs in m.go[q[k]]
  {
    var n := |g.rules[r].rhs|;
    ItemOnPath(g, m, q, p, r, n);
    k := |p| - n;
    assert g.rules[r].rhs[..n] == g.rules[r].rhs;
    PathPrefix(m, q, p, k);
    assert q[..k + 1][|p[..k]|] == q[k];
    InitialItem(g, m, q[..k + 1], p[..k], r);
  }

  /** The goto on `x`: it leads to some automaton successor on a symbol that derives `x`. */
  lemma GotoSound(g: Grammar, m: Automaton, tab: Table, s: nat, x: nat) returns (y: nat, t: nat)
    requires TableSound(g, m, tab) && |m.bases| == |m.go| && s < |m.go| && g.IsNonterminal(x) && x in m.go[s]
    ensures Derives(g, [y], [x]) && m.Goes(s, y, t)
    ensures match GotoAct(tab, s, x)
            case Shift(t') => t' == t
            case ShiftReduce(r) => Pending(g, m, t, r)
            case _ => false
  {
    assert RowSound(g, m, tab, s);
    var a := tab[s][x];
    assert EntrySound(g, m, s, x, a);
    if a.Shift? {
      t := a.st;
      y :| Derives(g, [y], [x]) && m.Goes(s, y, t);
    } else {
      y, t :| Derives(g, [y], [x]) && m.Goes(s, y, t) && Pending(g, m, t, a.rule);
    }
  }

  lemma PushOK(g: Grammar, m: Automaton, stack: Stack, q: seq<nat>, p: seq<nat>, k: nat, top: Top, major: nat, y: nat, t: nat)
    requires StackOK(g, m, stack, q, p) && k <= |p| && stack[k].top == St(q[k])
    requires m.Goes(q[k], y, t) && (top == St(t) || (top.Red? && Pending(g, m, t, top.rule)))
    ensures StackOK(g, m, Push(stack[..k + 1], top, major), q[..k + 1] + [t], p[..k] + [y])
  {
    PathPrefix(m, q, p, k);
    PathExtend(m, q[..k + 1], p[..k], y, t);
  }

  lemma ReduceShape(g: Grammar, tab: Table, stack: Stack, r: nat, k: nat, s: nat)
    requires r < |g.rules| && k + |g.rules[r].rhs| + 1 == |stack| && stack[k].top == St(s)
    ensures ReduceBy(g, tab, stack, r) ==
            match GotoAct(tab, s, g.rules[r].lhs)
            case Shift(t) => Reduced(Push(stack[..k + 1], St(t), g.rules[r].lhs), r)
            case ShiftReduce(r2) => Reduced(Push(stack[..k + 1], Red(r2), g.rules[r].lhs), r)
            case Accept => if k == 0 then Accepted(r) else Stuck
            case _ => Stuck
  {
    assert stack[..|stack| - |g.rules[r].rhs|] == stack[..k + 1];
  }

  /** A reduction by a reducible rule pops exactly its right-hand side, its goto is defined, and it undoes a derivation step. */
  lemma ReduceSound(g: Grammar, m: Automaton, tab: Table, stack: Stack, q: seq<nat>, p: seq<nat>, r: nat, u: seq<nat>, w: seq<nat>)
      returns (q': seq<nat>, p': seq<nat>)
    requires g.Valid() && AutomatonOK(g, m) && TableSound(g, m, tab) && StackOK(g, m, stack, q, p)
    requires Reducible(g, m, q[|p|], r) && (stack[|p|].top.Red? ==> g.rules[r].rhs != [])
    requires Derives(g, p + u, w)
    ensures match ReduceBy(g, tab, stack, r)
            case Reduced(s', r') => r' == r && StackOK(g, m, s', q', p') && Derives(g, p' + u, w)
            case Accepted(r') => r' == r && g.rules[r].lhs == g.start && Derives(g, [g.start] + u, w)
            case _ => false
  {
    var lhs := g.rules[r].lhs;
    var k := PopRhs(g, m, stack, q, p, r);
    var pre := p[..k];
    DerivesByReduction(g, pre, r, u, w);
    assert g.ValidRule(g.rules[r]);
    ReduceShape(g, tab, stack, r, k, q[k]);
    q', p' := q, p;
    if lhs == g.start {
      assert [g.start] + u == pre + [lhs] + u;
    } else {
      var y, t := GotoSound(g, m, tab, q[k], lhs);
      q', p' := q[..k + 1] + [t], pre + [y];
      DerivesContext(g, pre, [y], [lhs], u);
      DerivesTrans(g, pre + [y] + u, pre + [lhs] + u, w);
      match GotoAct(tab, q[k], lhs)
      case Shift(_) => PushOK(g, m, stack, q, p, k, St(t), lhs, y, t);
      case ShiftReduce(r2) => PushOK(g, m, stack, q, p, k, Red(r2), lhs, y, t);
    }
  }

  /**
   One iteration of the parser loop keeps the stack on a path of the automaton and
   keeps "path plus remaining input derives the whole input".  It never violates an
   assertion of the driver, and accepts only at the end of the input.
   */
  lemma StepSound(g: Grammar, m: Automaton, tab: Table, stack: Stack, q: seq<nat>, p: seq<nat>, a: nat, u: seq<nat>, w: seq<nat>)
      returns (q': seq<nat>, p': seq<nat>)
    requires g.Valid() && AutomatonOK(g, m) && TableSound(g, m, tab) && StackOK(g, m, stack, q, p)
    requires g.IsTerminal(a) && Derives(g, p + u, w) && (u == [] || u[0] == a)
    ensures StepKept(g, m, StepOn(g, tab, stack, a), q', p', a, u, w)
  {
    match TopOf(stack) {
      case Red(r) =>
        q', p' := ReduceSound(g, m, tab, stack, q, p, r, u, w);
      case St(s) =>
        PathStates(g, m, q, p, |p|);
        assert RowSound(g, m, tab, s);
        var x := if a in tab[s] then a else g.Default();
        if x in tab[s] {
          q', p' := EntryStep(g, m, tab, stack, q, p, s, x, a, u, w);
        } else {
          q', p' := q, p;
        }
    }
  }

  /** What one iteration promises, by its outcome. */
  ghost predicate StepKept(g: Grammar, m: Automaton, r: Outcome, q: seq<nat>, p: seq<nat>, a: nat, u: seq<nat>, w: seq<nat>)
  {
    match r
    case Shifted(s) => StackOK(g, m, s, q, p) && (u != [] ==> Derives(g, p + u[1..], w))
    case Reduced(s, _) => StackOK(g, m, s, q, p) && Derives(g, p + u, w)
    case Accepted(_) => a == 0 && Derives(g, [g.start] + u, w)
    case SyntaxError => true
    case Stuck => false
  }

  /** One iteration that uses the entry at `x`: the token or the default. */
  lemma EntryStep(g: Grammar, m: Automaton, tab: Table, stack: Stack, q: seq<nat>, p: seq<nat>, s: nat, x: nat, a: nat, u: seq<nat>, w: seq<nat>)
      returns (q': seq<nat>, p': seq<nat>)
    requires g.Valid() && AutomatonOK(g, m) && TableSound(g, m, tab) && StackOK(g, m, stack, q, p) && TopOf(stack) == St(s) && s < |tab|
    requires g.IsTerminal(a) && Derives(g, p + u, w) && (u == [] || u[0] == a)
    requires x == (if a in tab[s] then a else g.Default()) && x in tab[s] && RowSound(g, m, tab, s)
    ensures StepKept(g, m, StepOn(g, tab, stack, a), q', p', a, u, w)
  {
    q', p' := q, p;
    assert EntrySound(g, m, s, x, tab[s][x]);
    match tab[s][x] {
      case Shift(t) =>
        q', p' := ShiftSound(g, m, stack, q, p, St(t), x, u, w);
      case ShiftReduce(r) =>
        q', p' := ShiftSound(g, m, stack, q, p, Red(r), x, u, w);
      case Reduce(r) =>
        q', p' := ReduceSound(g, m, tab, stack, q, p, r, u, w);
      case Accept =>
      case Error =>
    }
  }

  lemma ShiftSound(g: Grammar, m: Automaton, stack: Stack, q: seq<nat>, p: seq<nat>, top: Top, a: nat, u: seq<nat>, w: seq<nat>)
      returns (q': seq<nat>, p': seq<nat>)
    requires StackOK(g, m, stack, q, p) && TopOf(stack) == St(q[|p|])
    requires top.St? ==> EntrySound(g, m, q[|p|], a, Shift(top.id))
    requires top.Red? ==> EntrySound(g, m, q[|p|], a, ShiftReduce(top.rule))
    requires Derives(g, p + u, w) && (u == [] || u[0] == a)
    ensures StackOK(g, m, Push(stack, top, a), q', p') && (u != [] ==> Derives(g, p' + u[1..], w))
  {
    var y: nat, t: nat;
    if top.St? {
      t := top.id;
      y :| Derives(g, [y], [a]) && m.Goes(q[|p|], y, t);
    } else {
      y, t :| Derives(g, [y], [a]) && m.Goes(q[|p|], y, t) && Pending(g, m, t, top.rule);
    }
    PushOK(g, m, stack, q, p, |p|, top, a, y, t);
    assert stack[..|p| + 1] == stack && q[..|p| + 1] == q && p[..|p|] == p;
    q', p' := q + [t], p + [y];
    if u != [] {
      DerivesContext(g, p, [y], [a], u[1..]);
      assert p + [a] + u[1..] == p + u;
      DerivesTrans(g, p + [y] + u[1..], p + u, w);
    }
  }

  /** Every accepting run derives its input. */
  lemma {:induction false} RunSound(g: Grammar, m: Automaton, tab: Table, stack: Stack, q: seq<nat>, p: seq<nat>, u: seq<nat>, w: seq<nat>, n: nat)
    requires g.Valid() && AutomatonOK(g, m) && TableSound(g, m, tab) && StackOK(g, m, stack, q, p)
    requires IsSentence(g, u) && Derives(g, p + u, w)
    requires Run(g, tab, stack, u + [0], n).Some?
    ensures Derives(g, [g.start], w)
    decreases n
  {
    var a := (u + [0])[0];
    var q', p' := StepSound(g, m, tab, stack, q, p, a, u, w);
    match StepOn(g, tab, stack, a)
    case Shifted(s') =>
      if u != [] {
        assert (u + [0])[1..] == u[1..] + [0];
        RunSound(g, m, tab, s', q', p', u[1..], w, n - 1);
      }
    case Reduced(s', r) =>
      RunSound(g, m, tab, s', q', p', u, w, n - 1);
    case Accepted(r) =>
      assert [g.start] + u == [g.start];
  }

  /** Parser soundness: what the machine accepts, the grammar derives. */
  lemma ParserSound(g: Grammar, m: Automaton, tab: Table, w: seq<nat>)
    requires g.Valid() && AutomatonOK(g, m) && TableSound(g, m, tab)
    requires IsSentence(g, w) && Accepts(g, tab, w)
    ensures Derives(g, [g.start], w)
  {
    var n: nat :| Run(g, tab, Init, w + [0], n).Some?;
    DerivesRefl(g, w);
    assert [] + w == w;
    RunSound(g, m, tab, Init, [0], [], w, w, n);
  }
}
