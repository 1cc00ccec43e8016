/**
 Context-free grammars as LEMON stores them, and the derivation relation that the
 generated parser is measured against.

 Symbols are their index numbers: `0` is the end-of-input symbol `$`, `1..nterminal`
 are terminals, `nterminal..nsymbol` are nonterminals and `nsymbol` itself is the
 pseudo symbol `{default}`.
 */
module Grammars {
  import opened Options

  datatype Assoc = LEFT | RIGHT | NONE | UNK

  /**
   One production.  Rules are numbered by their position in the table; `index` is
   the position in the grammar file, which orders configurations and actions.
   `noCode` says that no C code is attached to the reduction.
   */
  datatype Rule = Rule(lhs: nat, rhs: seq<nat>, index: nat, noCode: bool, precsym: Option<nat>)

  datatype Grammar = Grammar(
    nterminal: nat,
    nsymbol: nat,
    rules: seq<Rule>,
    start: nat,
    prec: seq<int>,
    assoc: seq<Assoc>)
  {
    predicate IsTerminal(x: nat) { x < nterminal }

    predicate IsNonterminal(x: nat) { nterminal <= x < nsymbol }

    /** The pseudo symbol `{default}`. */
    function Default(): nat { nsymbol }

    ghost predicate ValidRule(r: Rule)
    {
      && IsNonterminal(r.lhs)
      && (forall i | 0 <= i < |r.rhs| :: 1 <= r.rhs[i] < nsymbol)
      && (r.precsym.Some? ==> IsTerminal(r.precsym.value))
    }

    /** The grammars in scope: no `error` symbol, and the start symbol is on no right-hand side. */
    ghost predicate Valid()
    {
      && 1 <= nterminal <= nsymbol
      && |prec| == |assoc| == nsymbol
      && IsNonterminal(start)
      && (forall r | 0 <= r < |rules| :: ValidRule(rules[r]))
      && (forall r, q | 0 <= r < q < |rules| :: rules[r].index != rules[q].index)
      && (forall r, i | 0 <= r < |rules| && 0 <= i < |rules[r].rhs| :: rules[r].rhs[i] != start)
    }
  }

  // ---------------------------------------------------------------------------
  // Derivations
  // ---------------------------------------------------------------------------

  /** `b` is `a` with the nonterminal at position `i` replaced by the right-hand side of rule `r`. */
  ghost predicate StepAt(g: Grammar, a: seq<nat>, b: seq<nat>, i: nat, r: nat)
  {
    && i < |a|
    && r < |g.rules|
    && a[i] == g.rules[r].lhs
    && b == a[..i] + g.rules[r].rhs + a[i + 1..]
  }

  ghost predicate Step(g: Grammar, a: seq<nat>, b: seq<nat>)
  {
    exists i: nat, r: nat :: StepAt(g, a, b, i, r)
  }

  ghost predicate DerivesIn(g: Grammar, a: seq<nat>, b: seq<nat>, n: nat)
    decreases n
  {
    if n == 0 then a == b else exists c :: Step(g, a, c) && DerivesIn(g, c, b, n - 1)
  }

  /** The sentential form `a` derives `b` in some number of steps. */
  ghost predicate Derives(g: Grammar, a: seq<nat>, b: seq<nat>)
  {
    exists n: nat :: DerivesIn(g, a, b, n)
  }

  lemma DerivesRefl(g: Grammar, a: seq<nat>)
    ensures Derives(g, a, a)
  {
    assert DerivesIn(g, a, a, 0);
  }

  lemma {:induction false} DerivesInTrans(g: Grammar, a: seq<nat>, b: seq<nat>, c: seq<nat>, m: nat, n: nat)
    requires DerivesIn(g, a, b, m) && DerivesIn(g, b, c, n)
    ensures DerivesIn(g, a, c, m + n)
    decreases m
  {
    if m != 0 {
      var x :| Step(g, a, x) && DerivesIn(g, x, b, m - 1);
      DerivesInTrans(g, x, b, c, m - 1, n);
    }
  }

  lemma DerivesTrans(g: Grammar, a: seq<nat>, b: seq<nat>, c: seq<nat>)
    requires Derives(g, a, b) && Derives(g, b, c)
    ensures Derives(g, a, c)
  {
    var m: nat :| DerivesIn(g, a, b, m);
    var n: nat :| DerivesIn(g, b, c, n);
    DerivesInTrans(g, a, b, c, m, n);
  }

  lemma StepInContext(g: Grammar, pre: seq<nat>, a: seq<nat>, b: seq<nat>, suf: seq<nat>)
    requires Step(g, a, b)
    ensures Step(g, pre + a + suf, pre + b + suf)
  {
    var i: nat, r: nat :| StepAt(g, a, b, i, r);
    var l := pre + a + suf;
    assert l[..|pre| + i] == pre + a[..i];
    assert l[|pre| + i + 1..] == a[i + 1..] + suf;
    assert pre + b + suf == (pre + a[..i]) + g.rules[r].rhs + (a[i + 1..] + suf);
    assert StepAt(g, l, pre + b + suf, |pre| + i, r);
  }

  lemma {:induction false} DerivesInContext(g: Grammar, pre: seq<nat>, a: seq<nat>, b: seq<nat>, suf: seq<nat>, n: nat)
    requires DerivesIn(g, a, b, n)
    ensures DerivesIn(g, pre + a + suf, pre + b + suf, n)
    decreases n
  {
    if n != 0 {
      var c :| Step(g, a, c) && DerivesIn(g, c, b, n - 1);
      StepInContext(g, pre, a, c, suf);
      DerivesInContext(g, pre, c, b, suf, n - 1);
    }
  }

  lemma DerivesContext(g: Grammar, pre: seq<nat>, a: seq<nat>, b: seq<nat>, suf: seq<nat>)
    requires Derives(g, a, b)
    ensures Derives(g, pre + a + suf, pre + b + suf)
  {
    var n: nat :| DerivesIn(g, a, b, n);
    DerivesInContext(g, pre, a, b, suf, n);
  }

  lemma DerivesConcat(g: Grammar, a: seq<nat>, a': seq<nat>, b: seq<nat>, b': seq<nat>)
    requires Derives(g, a, a') && Derives(g, b, b')
    ensures Derives(g, a + b, a' + b')
  {
    DerivesContext(g, [], a, a', b);
    DerivesContext(g, a', b, b', []);
    assert [] + a + b == a + b && [] + a' + b == a' + b;
    assert a' + b + [] == a' + b && a' + b' + [] == a' + b';
    DerivesTrans(g, a + b, a' + b, a' + b');
  }

  lemma DerivesRule(g: Grammar, r: nat)
    requires r < |g.rules|
    ensures Derives(g, [g.rules[r].lhs], g.rules[r].rhs)
  {
    var a := [g.rules[r].lhs];
    assert a[..0] + g.rules[r].rhs + a[1..] == g.rules[r].rhs;
    assert StepAt(g, a, g.rules[r].rhs, 0, r);
    assert Step(g, a, g.rules[r].rhs) && DerivesIn(g, g.rules[r].rhs, g.rules[r].rhs, 0);
    assert DerivesIn(g, a, g.rules[r].rhs, 1);
  }

  /** A reduction undoes a derivation step inside a sentential form. */
  lemma DerivesByReduction(g: Grammar, pre: seq<nat>, r: nat, suf: seq<nat>, w: seq<nat>)
    requires r < |g.rules|
    requires Derives(g, pre + g.rules[r].rhs + suf, w)
    ensures Derives(g, pre + [g.rules[r].lhs] + suf, w)
  {
    DerivesRule(g, r);
    DerivesContext(g, pre, [g.rules[r].lhs], g.rules[r].rhs, suf);
    DerivesTrans(g, pre + [g.rules[r].lhs] + suf, pre + g.rules[r].rhs + suf, w);
  }

  // ---------------------------------------------------------------------------
  // Derivation trees
  // ---------------------------------------------------------------------------

  datatype Tree = Leaf(sym: nat) | Node(rule: nat, kids: seq<Tree>)

  ghost predicate ValidTree(g: Grammar, t: Tree)
  {
    match t
    case Leaf(x) => 1 <= x < g.nterminal
    case Node(r, kids) =>
      && r < |g.rules|
      && |kids| == |g.rules[r].rhs|
      && (forall i | 0 <= i < |kids| :: ValidTree(g, kids[i]))
      && (forall i | 0 <= i < |kids| :: Root(g, kids[i]) == g.rules[r].rhs[i])
  }

  ghost function Root(g: Grammar, t: Tree): nat
  {
    match t
    case Leaf(x) => x
    case Node(r, _) => if r < |g.rules| then g.rules[r].lhs else 0
  }

  ghost function Yield(t: Tree): seq<nat>
  {
    match t
    case Leaf(x) => [x]
    case Node(_, kids) => YieldAll(kids)
  }

  ghost function YieldAll(ts: seq<Tree>): seq<nat>
  {
    if ts == [] then [] else Yield(ts[0]) + YieldAll(ts[1..])
  }

  ghost predicate ValidForest(g: Grammar, ts: seq<Tree>, roots: seq<nat>)
  {
    && |ts| == |roots|
    && (forall i | 0 <= i < |ts| :: ValidTree(g, ts[i]))
    && (forall i | 0 <= i < |ts| :: Root(g, ts[i]) == roots[i])
  }

  lemma {:induction false} YieldAllConcat(a: seq<Tree>, b: seq<Tree>)
    ensures YieldAll(a + b) == YieldAll(a) + YieldAll(b)
  {
    if a == [] {
      assert a + b == b;
    } else {
      YieldAllConcat(a[1..], b);
      assert (a + b)[0] == a[0] && (a + b)[1..] == a[1..] + b;
      assert YieldAll(a + b) == Yield(a[0]) + (YieldAll(a[1..]) + YieldAll(b));
    }
  }

  ghost predicate IsSentence(g: Grammar, w: seq<nat>)
  {
    forall i | 0 <= i < |w| :: 1 <= w[i] < g.nterminal
  }

  lemma {:induction false} LeafForest(g: Grammar, w: seq<nat>) returns (ts: seq<Tree>)
    requires IsSentence(g, w)
    ensures ValidForest(g, ts, w) && YieldAll(ts) == w
  {
    if w == [] {
      ts := [];
    } else {
      var rest := LeafForest(g, w[1..]);
      ts := [Leaf(w[0])] + rest;
      assert ts[1..] == rest;
    }
  }

  lemma FoldYield(l: seq<Tree>, m: seq<Tree>, h: seq<Tree>, r: nat)
    ensures YieldAll(l + ([Node(r, m)] + h)) == YieldAll(l + (m + h))
  {
    YieldAllConcat(l, m + h);
    YieldAllConcat(m, h);
    YieldAllConcat(l, [Node(r, m)] + h);
    assert ([Node(r, m)] + h)[1..] == h;
  }

  lemma ForestSplit(g: Grammar, l: seq<Tree>, m: seq<Tree>, a: seq<nat>, b: seq<nat>)
    requires |l| == |a|
    requires ValidForest(g, l + m, a + b)
    ensures ValidForest(g, l, a) && ValidForest(g, m, b)
  {
    forall j | 0 <= j < |l| ensures ValidTree(g, l[j]) && Root(g, l[j]) == a[j] {
      assert l[j] == (l + m)[j] && a[j] == (a + b)[j];
    }
    forall j | 0 <= j < |m| ensures ValidTree(g, m[j]) && Root(g, m[j]) == b[j] {
      assert m[j] == (l + m)[|l| + j] && b[j] == (a + b)[|l| + j];
    }
  }

  lemma ForestJoin(g: Grammar, l: seq<Tree>, m: seq<Tree>, a: seq<nat>, b: seq<nat>)
    requires ValidForest(g, l, a) && ValidForest(g, m, b)
    ensures ValidForest(g, l + m, a + b)
  {
  }

  /** Folding the subtrees of one derivation step into a node undoes the step. */
  lemma FoldForest(g: Grammar, a: seq<nat>, c: seq<nat>, i: nat, r: nat, fs: seq<Tree>) returns (ts: seq<Tree>)
    requires StepAt(g, a, c, i, r) && ValidForest(g, fs, c)
    ensures ValidForest(g, ts, a) && YieldAll(ts) == YieldAll(fs)
  {
    var rhs := g.rules[r].rhs;
    var l, m, h := fs[..i], fs[i..i + |rhs|], fs[i + |rhs|..];
    assert fs == l + (m + h);
    assert c == a[..i] + (rhs + a[i + 1..]);
    ForestSplit(g, l, m + h, a[..i], rhs + a[i + 1..]);
    ForestSplit(g, m, h, rhs, a[i + 1..]);
    FoldYield(l, m, h, r);
    ts := l + ([Node(r, m)] + h);
    assert ValidForest(g, [Node(r, m)], [a[i]]);
    ForestJoin(g, [Node(r, m)], h, [a[i]], a[i + 1..]);
    ForestJoin(g, l, [Node(r, m)] + h, a[..i], [a[i]] + a[i + 1..]);
    assert a == a[..i] + ([a[i]] + a[i + 1..]);
  }

  /** Every derivation of a sentence has a forest of derivation trees. */
  lemma {:induction false} ForestOfDerivation(g: Grammar, a: seq<nat>, w: seq<nat>, n: nat) returns (ts: seq<Tree>)
    requires DerivesIn(g, a, w, n) && IsSentence(g, w)
    ensures ValidForest(g, ts, a) && YieldAll(ts) == w
    decreases n
  {
    if n == 0 {
      ts := LeafForest(g, w);
    } else {
      var c :| Step(g, a, c) && DerivesIn(g, c, w, n - 1);
      var i: nat, r: nat :| StepAt(g, a, c, i, r);
      var fs := ForestOfDerivation(g, c, w, n - 1);
      ts := FoldForest(g, a, c, i, r, fs);
    }
  }

  /** The converse: a valid tree is a derivation of its yield. */
  lemma {:induction false} TreeDerives(g: Grammar, t: Tree)
    requires ValidTree(g, t)
    ensures Derives(g, [Root(g, t)], Yield(t))
    decreases t, 0
  {
    match t
    case Leaf(x) => DerivesRefl(g, [x]);
    case Node(r, kids) =>
      ForestDerives(g, kids, g.rules[r].rhs);
      DerivesRule(g, r);
      DerivesTrans(g, [g.rules[r].lhs], g.rules[r].rhs, YieldAll(kids));
  }

  lemma {:induction false} ForestDerives(g: Grammar, ts: seq<Tree>, roots: seq<nat>)
    requires ValidForest(g, ts, roots)
    ensures Derives(g, roots, YieldAll(ts))
    decreases ts
  {
    if ts == [] {
      DerivesRefl(g, []);
    } else {
      TreeDerives(g, ts[0]);
      ForestDerives(g, ts[1..], roots[1..]);
      DerivesConcat(g, [roots[0]], Yield(ts[0]), roots[1..], YieldAll(ts[1..]));
      assert [roots[0]] + roots[1..] == roots;
    }
  }
}
