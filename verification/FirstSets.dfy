/**
 `FindFirstSets`: the two progress loops that compute the nullable nonterminals
 (`lambda`) and the first set of every nonterminal.  Both are proved to be exact:
 the loops reach the least fixpoint, which is the set of facts that derivations
 justify.
 */
module FirstSets {
  import opened Grammars

  /** `x` derives the empty string. */
  ghost predicate Nullable(g: Grammar, x: nat)
  {
    Derives(g, [x], [])
  }

  /** Some sentential form derived from `x` begins with the symbol `t`. */
  ghost predicate Begins(g: Grammar, x: nat, t: nat)
  {
    exists b :: Derives(g, [x], [t] + b)
  }

  predicate AllLambda(lam: seq<bool>, a: seq<nat>)
  {
    forall i | 0 <= i < |a| :: a[i] < |lam| && lam[a[i]]
  }

  /** Position `j` of `a` can contribute `t` as the first symbol, going by the tables `lam` and `fst`. */
  predicate Contributes(g: Grammar, lam: seq<bool>, fst: seq<set<nat>>, a: seq<nat>, t: nat, j: nat)
  {
    && j < |a|
    && AllLambda(lam, a[..j])
    && if g.IsTerminal(a[j]) then t == a[j] else a[j] < |fst| && t in fst[a[j]]
  }

  ghost predicate InFirst(g: Grammar, lam: seq<bool>, fst: seq<set<nat>>, a: seq<nat>, t: nat)
  {
    exists j: nat :: Contributes(g, lam, fst, a, t, j)
  }

  // ---------------------------------------------------------------------------
  // What a fixpoint and a sound table are
  // ---------------------------------------------------------------------------

  ghost predicate LambdaClosedAt(g: Grammar, lam: seq<bool>, r: nat)
    requires r < |g.rules| && g.Valid() && |lam| == g.nsymbol
  {
    AllLambda(lam, g.rules[r].rhs) ==> lam[g.rules[r].lhs]
  }

  ghost predicate LambdaClosed(g: Grammar, lam: seq<bool>)
    requires g.Valid() && |lam| == g.nsymbol
  {
    forall r: nat | r < |g.rules| :: LambdaClosedAt(g, lam, r)
  }

  ghost predicate LambdaSound(g: Grammar, lam: seq<bool>)
    requires |lam| == g.nsymbol
  {
    forall x: nat | x < |lam| && lam[x] :: g.IsNonterminal(x) && Nullable(g, x)
  }

  ghost predicate FirstClosedAt(g: Grammar, lam: seq<bool>, fst: seq<set<nat>>, r: nat)
    requires r < |g.rules| && g.Valid() && |lam| == |fst| == g.nsymbol
  {
    forall t: nat :: InFirst(g, lam, fst, g.rules[r].rhs, t) ==> t in fst[g.rules[r].lhs]
  }

  ghost predicate FirstClosed(g: Grammar, lam: seq<bool>, fst: seq<set<nat>>)
    requires g.Valid() && |lam| == |fst| == g.nsymbol
  {
    forall r: nat | r < |g.rules| :: FirstClosedAt(g, lam, fst, r)
  }

  ghost predicate FirstSound(g: Grammar, fst: seq<set<nat>>)
    requires |fst| == g.nsymbol
  {
    forall x: nat, t: nat | x < |fst| && t in fst[x] :: g.IsTerminal(t) && Begins(g, x, t)
  }

  // ---------------------------------------------------------------------------
  // Soundness of one step
  // ---------------------------------------------------------------------------

  lemma {:induction false} AllLambdaDerivesEmpty(g: Grammar, lam: seq<bool>, a: seq<nat>)
    requires |lam| == g.nsymbol && LambdaSound(g, lam) && AllLambda(lam, a)
    ensures Derives(g, a, [])
  {
    if a == [] {
      DerivesRefl(g, []);
    } else {
      assert lam[a[0]];
      assert AllLambda(lam, a[1..]) by {
        forall i | 0 <= i < |a[1..]| ensures a[1..][i] < |lam| && lam[a[1..][i]] { assert a[1..][i] == a[i + 1]; }
      }
      AllLambdaDerivesEmpty(g, lam, a[1..]);
      DerivesConcat(g, [a[0]], [], a[1..], []);
      assert [a[0]] + a[1..] == a;
      var empty: seq<nat> := [];
      assert empty + empty == empty;
    }
  }

  lemma NullableByRule(g: Grammar, lam: seq<bool>, r: nat)
    requires g.Valid() && |lam| == g.nsymbol && LambdaSound(g, lam)
    requires r < |g.rules| && AllLambda(lam, g.rules[r].rhs)
    ensures Nullable(g, g.rules[r].lhs)
  {
    AllLambdaDerivesEmpty(g, lam, g.rules[r].rhs);
    DerivesRule(g, r);
    DerivesTrans(g, [g.rules[r].lhs], g.rules[r].rhs, []);
  }

  lemma BeginsInContext(g: Grammar, pre: seq<nat>, x: nat, suf: seq<nat>, t: nat, b: seq<nat>)
    requires Derives(g, pre, []) && Derives(g, [x], [t] + b)
    ensures Derives(g, pre + [x] + suf, [t] + (b + suf))
  {
    DerivesConcat(g, pre, [], [x], [t] + b);
    DerivesRefl(g, suf);
    DerivesConcat(g, pre + [x], [] + ([t] + b), suf, suf);
    assert [] + ([t] + b) + suf == [t] + (b + suf);
  }

  lemma BeginsByRule(g: Grammar, lam: seq<bool>, r: nat, j: nat, t: nat)
    requires g.Valid() && |lam| == g.nsymbol && LambdaSound(g, lam)
    requires r < |g.rules| && j < |g.rules[r].rhs| && AllLambda(lam, g.rules[r].rhs[..j])
    requires t == g.rules[r].rhs[j] || Begins(g, g.rules[r].rhs[j], t)
    ensures Begins(g, g.rules[r].lhs, t)
  {
    var a := g.rules[r].rhs;
    AllLambdaDerivesEmpty(g, lam, a[..j]);
    var b := BeginsWith(g, a[j], t);
    BeginsInContext(g, a[..j], a[j], a[j + 1..], t, b);
    assert a[..j] + [a[j]] + a[j + 1..] == a;
    RuleBegins(g, r, t, b + a[j + 1..]);
  }

  lemma RuleBegins(g: Grammar, r: nat, t: nat, c: seq<nat>)
    requires r < |g.rules| && Derives(g, g.rules[r].rhs, [t] + c)
    ensures Begins(g, g.rules[r].lhs, t)
  {
    DerivesRule(g, r);
    DerivesTrans(g, [g.rules[r].lhs], g.rules[r].rhs, [t] + c);
  }

  lemma BeginsWith(g: Grammar, x: nat, t: nat) returns (b: seq<nat>)
    requires t == x || Begins(g, x, t)
    ensures Derives(g, [x], [t] + b)
  {
    if t == x {
      b := [];
      DerivesRefl(g, [t]);
      assert [t] + [] == [t];
    } else {
      b :| Derives(g, [x], [t] + b);
    }
  }

  // ---------------------------------------------------------------------------
  // A fixpoint contains everything derivations justify
  // ---------------------------------------------------------------------------

  lemma {:induction false} NullableIsLambda(g: Grammar, lam: seq<bool>, a: seq<nat>, n: nat)
    requires g.Valid() && |lam| == g.nsymbol && LambdaClosed(g, lam)
    requires DerivesIn(g, a, [], n)
    ensures AllLambda(lam, a)
    decreases n
  {
    if n != 0 {
      var c :| Step(g, a, c) && DerivesIn(g, c, [], n - 1);
      var i: nat, r: nat :| StepAt(g, a, c, i, r);
      NullableIsLambda(g, lam, c, n - 1);
      LambdaBackward(g, lam, a, c, i, r);
    }
  }

  /** If all symbols of the derived form are nullable, so are those of the form one step before it. */
  lemma LambdaBackward(g: Grammar, lam: seq<bool>, a: seq<nat>, c: seq<nat>, i: nat, r: nat)
    requires g.Valid() && |lam| == g.nsymbol && LambdaClosed(g, lam) && StepAt(g, a, c, i, r) && AllLambda(lam, c)
    ensures AllLambda(lam, a)
  {
    var rhs := g.rules[r].rhs;
    forall k | 0 <= k < |rhs| ensures rhs[k] < |lam| && lam[rhs[k]] { assert c[i + k] == rhs[k]; }
    assert LambdaClosedAt(g, lam, r);
    forall k | 0 <= k < |a| ensures a[k] < |lam| && lam[a[k]] {
      if k < i { assert c[k] == a[k]; }
      if k > i { assert c[k + |rhs| - 1] == a[k]; }
    }
  }

  lemma AllLambdaPrefix(lam: seq<bool>, a: seq<nat>, c: seq<nat>, m: nat, n: nat)
    requires m <= |a| && n <= |c| && m <= n && a[..m] == c[..m] && AllLambda(lam, c[..n])
    ensures AllLambda(lam, a[..m])
  {
    forall k | 0 <= k < m ensures a[k] < |lam| && lam[a[k]] { assert c[..n][k] == a[..m][k]; }
  }

  /** If the derived form has a first symbol `t`, so does the form one step before it. */
  lemma FirstBackward(g: Grammar, lam: seq<bool>, fst: seq<set<nat>>, a: seq<nat>, c: seq<nat>, i: nat, r: nat, t: nat, j: nat)
    requires g.Valid() && |lam| == |fst| == g.nsymbol && LambdaClosed(g, lam) && FirstClosed(g, lam, fst)
    requires StepAt(g, a, c, i, r) && Contributes(g, lam, fst, c, t, j)
    ensures InFirst(g, lam, fst, a, t)
  {
    var rhs := g.rules[r].rhs;
    assert !g.IsTerminal(a[i]) && a[i] < g.nsymbol;
    if j < i {
      AllLambdaPrefix(lam, a, c, j, j);
      assert Contributes(g, lam, fst, a, t, j);
    } else if j < i + |rhs| {
      AllLambdaPrefix(lam, a, c, i, j);
      forall k | 0 <= k < j - i ensures rhs[k] < |lam| && lam[rhs[k]] { assert c[..j][i + k] == rhs[k]; }
      assert c[j] == rhs[j - i];
      assert Contributes(g, lam, fst, rhs, t, j - i);
      assert FirstClosedAt(g, lam, fst, r);
      assert Contributes(g, lam, fst, a, t, i);
    } else {
      var j' := j + 1 - |rhs|;
      forall k | 0 <= k < |rhs| ensures rhs[k] < |lam| && lam[rhs[k]] { assert c[..j][i + k] == rhs[k]; }
      assert LambdaClosedAt(g, lam, r);
      assert a[j'] == c[j];
      forall k | 0 <= k < j' ensures a[k] < |lam| && lam[a[k]] {
        if k < i { assert c[..j][k] == a[k]; }
        if k > i { assert c[..j][k + |rhs| - 1] == a[k]; }
      }
      assert Contributes(g, lam, fst, a, t, j');
    }
  }

  lemma {:induction false} BeginsIsFirst(g: Grammar, lam: seq<bool>, fst: seq<set<nat>>, a: seq<nat>, w: seq<nat>, n: nat)
    requires g.Valid() && |lam| == |fst| == g.nsymbol && LambdaClosed(g, lam) && FirstClosed(g, lam, fst)
    requires DerivesIn(g, a, w, n) && w != [] && g.IsTerminal(w[0])
    ensures InFirst(g, lam, fst, a, w[0])
    decreases n
  {
    if n == 0 {
      assert Contributes(g, lam, fst, a, w[0], 0);
    } else {
      var c :| Step(g, a, c) && DerivesIn(g, c, w, n - 1);
      var i: nat, r: nat :| StepAt(g, a, c, i, r);
      BeginsIsFirst(g, lam, fst, c, w, n - 1);
      var j: nat :| Contributes(g, lam, fst, c, w[0], j);
      FirstBackward(g, lam, fst, a, c, i, r, w[0], j);
    }
  }

  /** The tables are exactly the facts that derivations justify. */
  ghost predicate Exact(g: Grammar, lam: seq<bool>, fst: seq<set<nat>>)
    requires |lam| == |fst| == g.nsymbol
  {
    && (forall x: nat | x < g.nsymbol :: lam[x] <==> Nullable(g, x))
    && (forall x: nat, t: nat | g.IsNonterminal(x) :: t in fst[x] <==> g.IsTerminal(t) && Begins(g, x, t))
  }

  lemma FixpointIsExact(g: Grammar, lam: seq<bool>, fst: seq<set<nat>>)
    requires g.Valid() && |lam| == |fst| == g.nsymbol
    requires LambdaClosed(g, lam) && LambdaSound(g, lam)
    requires FirstClosed(g, lam, fst) && FirstSound(g, fst)
    ensures Exact(g, lam, fst)
  {
    forall x: nat | x < g.nsymbol && Nullable(g, x) ensures lam[x] {
      var n: nat :| DerivesIn(g, [x], [], n);
      NullableIsLambda(g, lam, [x], n);
      assert [x][0] == x;
    }
    forall x: nat, t: nat | g.IsNonterminal(x) && g.IsTerminal(t) && Begins(g, x, t) ensures t in fst[x] {
      var b :| Derives(g, [x], [t] + b);
      var n: nat :| DerivesIn(g, [x], [t] + b, n);
      BeginsIsFirst(g, lam, fst, [x], [t] + b, n);
      var j: nat :| Contributes(g, lam, fst, [x], t, j);
    }
  }

  // ---------------------------------------------------------------------------
  // Exact tables are closed
  // ---------------------------------------------------------------------------

  lemma ExactIsSound(g: Grammar, lam: seq<bool>, fst: seq<set<nat>>)
    requires g.Valid() && |lam| == |fst| == g.nsymbol && Exact(g, lam, fst)
    ensures LambdaSound(g, lam)
  {
    forall x: nat | x < |lam| && lam[x] ensures g.IsNonterminal(x) { if g.IsTerminal(x) { TerminalNotNullable(g, x); } }
  }

  lemma TerminalNotNullable(g: Grammar, x: nat)
    requires g.Valid() && g.IsTerminal(x)
    ensures !Nullable(g, x)
  {
  }

  lemma ExactIsClosed(g: Grammar, lam: seq<bool>, fst: seq<set<nat>>)
    requires g.Valid() && |lam| == |fst| == g.nsymbol && Exact(g, lam, fst)
    ensures LambdaClosed(g, lam) && FirstClosed(g, lam, fst)
  {
    ExactIsSound(g, lam, fst);
    forall r: nat | r < |g.rules| ensures LambdaClosedAt(g, lam, r) && FirstClosedAt(g, lam, fst, r) {
      assert g.ValidRule(g.rules[r]);
      if AllLambda(lam, g.rules[r].rhs) { NullableByRule(g, lam, r); }
      forall t: nat | InFirst(g, lam, fst, g.rules[r].rhs, t) ensures t in fst[g.rules[r].lhs] { RuleFirst(g, lam, fst, r, t); }
    }
  }

  lemma RuleFirst(g: Grammar, lam: seq<bool>, fst: seq<set<nat>>, r: nat, t: nat)
    requires g.Valid() && |lam| == |fst| == g.nsymbol && Exact(g, lam, fst) && LambdaSound(g, lam) && r < |g.rules| && InFirst(g, lam, fst, g.rules[r].rhs, t)
    ensures t in fst[g.rules[r].lhs]
  {
    assert g.ValidRule(g.rules[r]);
    var j: nat :| Contributes(g, lam, fst, g.rules[r].rhs, t, j);
    var x := g.rules[r].rhs[j];
    assert !g.IsTerminal(x) ==> g.IsNonterminal(x);
    BeginsByRule(g, lam, r, j, t);
  }

  // ---------------------------------------------------------------------------
  // The loops
  // ---------------------------------------------------------------------------

  ghost function NotLambda(lam: seq<bool>): set<nat>
  {
    set x: nat | x < |lam| && !lam[x]
  }

  /** The scan of one right-hand side: does every symbol of it have `lambda` set? */
  method RhsIsLambda(lambda: array<bool>, rhs: seq<nat>) returns (all: bool)
    requires forall i | 0 <= i < |rhs| :: rhs[i] < lambda.Length
    ensures all <==> AllLambda(lambda[..], rhs)
  {
    var i := 0;
    while i < |rhs|
      invariant 0 <= i <= |rhs|
      invariant forall k | 0 <= k < i :: lambda[rhs[k]]
    {
      if !lambda[rhs[i]] { return false; }
      i := i + 1;
    }
    return true;
  }

  /** Compute all lambdas. */
  method FindLambdas(g: Grammar, lambda: array<bool>)
    requires g.Valid() && lambda.Length == g.nsymbol
    modifies lambda
    ensures LambdaClosed(g, lambda[..]) && LambdaSound(g, lambda[..])
  {
    for i := 0 to lambda.Length
      invariant forall k | 0 <= k < i :: !lambda[k]
    {
      lambda[i] := false;
    }
    var progress := true;
    while progress
      invariant LambdaSound(g, lambda[..])
      invariant !progress ==> LambdaClosed(g, lambda[..])
      decreases NotLambda(lambda[..]), progress
    {
      ghost var lam0 := lambda[..];
      progress := false;
      var rp := 0;
      while rp < |g.rules|
        invariant 0 <= rp <= |g.rules|
        invariant LambdaSound(g, lambda[..])
        invariant !progress ==> lambda[..] == lam0
        invariant !progress ==> forall r: nat | r < rp :: LambdaClosedAt(g, lambda[..], r)
        invariant progress ==> NotLambda(lambda[..]) < NotLambda(lam0)
      {
        var rule := g.rules[rp];
        assert g.ValidRule(rule);
        if !lambda[rule.lhs] {
          var all := RhsIsLambda(lambda, rule.rhs);
          if all {
            NullableByRule(g, lambda[..], rp);
            ghost var before := lambda[..];
            lambda[rule.lhs] := true;
            assert lambda[..] == before[rule.lhs := true];
            assert rule.lhs in NotLambda(before) && rule.lhs !in NotLambda(lambda[..]);
            assert NotLambda(lambda[..]) < NotLambda(before);
            progress := true;
          }
        }
        rp := rp + 1;
      }
    }
  }

  ghost predicate Le(f: seq<set<nat>>, f': seq<set<nat>>)
  {
    |f| == |f'| && forall x | 0 <= x < |f| :: f[x] <= f'[x]
  }

  ghost function Missing(g: Grammar, fst: seq<set<nat>>): set<(nat, nat)>
  {
    set x: nat, t: nat | x < |fst| && t < g.nterminal && t !in fst[x] :: (x, t)
  }

  lemma MissingShrinks(g: Grammar, f: seq<set<nat>>, f': seq<set<nat>>)
    requires Le(f, f') && f != f' && |f| == g.nsymbol && FirstSound(g, f')
    ensures Missing(g, f') < Missing(g, f)
  {
    assert Missing(g, f') <= Missing(g, f);
    var x: nat :| x < |f| && f[x] != f'[x];
    var t :| t in f'[x] && t !in f[x];
    assert g.IsTerminal(t);
    assert (x, t) in Missing(g, f) && (x, t) !in Missing(g, f');
  }

  /**
   Merge what one rule says into the first set of its left-hand side.  `fst` stays
   sound, only grows, and ends up closed under this rule.
   */
  method FirstSetOfRule(g: Grammar, lambda: array<bool>, firstset: array<set<nat>>, rp: nat) returns (progress: bool)
    requires g.Valid() && lambda.Length == firstset.Length == g.nsymbol && rp < |g.rules|
    requires LambdaSound(g, lambda[..]) && FirstSound(g, firstset[..])
    modifies firstset
    ensures FirstSound(g, firstset[..]) && Le(old(firstset[..]), firstset[..])
    ensures FirstClosedAt(g, lambda[..], firstset[..], rp)
    ensures !progress <==> firstset[..] == old(firstset[..])
  {
    progress := false;
    var rule := g.rules[rp];
    assert g.ValidRule(rule);
    var s1 := rule.lhs;
    ghost var lam := lambda[..];
    ghost var f0 := firstset[..];
    var i := 0;
    var stopped := false;
    while i < |rule.rhs| && !stopped
      invariant 0 <= i <= |rule.rhs|
      invariant MergedTo(g, lam, f0, firstset[..], rp, i) && (!progress <==> firstset[..] == f0)
      invariant !stopped ==> AllLambda(lam, rule.rhs[..i])
      invariant stopped ==> i > 0 && (g.IsTerminal(rule.rhs[i - 1]) || !lam[rule.rhs[i - 1]])
      decreases |rule.rhs| - i, !stopped
    {
      var s2 := rule.rhs[i];
      ghost var fi := firstset[..];
      if g.IsTerminal(s2) {
        progress := progress || s2 !in firstset[s1];
        firstset[s1] := firstset[s1] + {s2};
        stopped := true;
      } else if s1 == s2 {
        assert fi[s1] + fi[s1] == fi[s1];
        stopped := !lambda[s1];
      } else {
        progress := progress || !(firstset[s2] <= firstset[s1]);
        firstset[s1] := firstset[s1] + firstset[s2];
        stopped := !lambda[s2];
      }
      MergeSymbol(g, lam, f0, fi, rp, i);
      assert firstset[..] == fi[s1 := fi[s1] + FirstOf(g, fi, s2)];
      assert rule.rhs[..i + 1] == rule.rhs[..i] + [s2];
      i := i + 1;
    }
    MergedIsClosed(g, lam, f0, firstset[..], rp, i);
  }

  /** What one symbol of a right-hand side brings. */
  ghost function FirstOf(g: Grammar, f: seq<set<nat>>, x: nat): set<nat>
    requires x < |f|
  {
    if g.IsTerminal(x) then {x} else f[x]
  }

  /** The first `i` symbols of the rule have been merged. */
  ghost predicate MergedTo(g: Grammar, lam: seq<bool>, f0: seq<set<nat>>, f: seq<set<nat>>, rp: nat, i: nat)
    requires rp < |g.rules| && |f| == g.nsymbol
  {
    var rule := g.rules[rp];
    && FirstSound(g, f) && |f| == |f0| && rule.lhs < |f| && f0[rule.lhs] <= f[rule.lhs] && f == f0[rule.lhs := f[rule.lhs]]
    && forall j: nat, t: nat | j < i && Contributes(g, lam, f, rule.rhs, t, j) :: t in f[rule.lhs]
  }

  lemma MergeSymbol(g: Grammar, lam: seq<bool>, f0: seq<set<nat>>, f: seq<set<nat>>, rp: nat, i: nat)
    requires g.Valid() && |lam| == |f| == g.nsymbol && LambdaSound(g, lam) && rp < |g.rules| && i < |g.rules[rp].rhs|
    requires g.rules[rp].lhs < |f| && g.rules[rp].rhs[i] < |f| && MergedTo(g, lam, f0, f, rp, i) && AllLambda(lam, g.rules[rp].rhs[..i])
    ensures var s1, s2 := g.rules[rp].lhs, g.rules[rp].rhs[i];
            && MergedTo(g, lam, f0, f[s1 := f[s1] + FirstOf(g, f, s2)], rp, i + 1)
            && (f[s1 := f[s1] + FirstOf(g, f, s2)] == f0 <==> f == f0 && FirstOf(g, f, s2) <= f[s1])
  {
    var rule := g.rules[rp];
    var s1, s2 := rule.lhs, rule.rhs[i];
    var f' := f[s1 := f[s1] + FirstOf(g, f, s2)];
    if f == f0 && FirstOf(g, f, s2) <= f[s1] { assert f[s1] + FirstOf(g, f, s2) == f[s1]; }
    assert f0[s1] <= f[s1] <= f'[s1];
    if f' == f0 {
      assert f[s1] == f0[s1];
      assert f == f0;
    }
    forall t | t in FirstOf(g, f, s2) ensures Begins(g, s1, t) { BeginsByRule(g, lam, rp, i, t); }
    forall j: nat, t: nat | j < i + 1 && Contributes(g, lam, f', rule.rhs, t, j) ensures t in f'[s1] {
      if j < i && rule.rhs[j] != s1 {
        assert Contributes(g, lam, f, rule.rhs, t, j);
      }
    }
  }

  lemma MergedIsClosed(g: Grammar, lam: seq<bool>, f0: seq<set<nat>>, f: seq<set<nat>>, rp: nat, i: nat)
    requires g.Valid() && |lam| == |f| == g.nsymbol && rp < |g.rules| && i <= |g.rules[rp].rhs| && MergedTo(g, lam, f0, f, rp, i)
    requires forall j | 0 <= j < |g.rules[rp].rhs| :: g.rules[rp].rhs[j] < |lam|
    requires i < |g.rules[rp].rhs| ==> i > 0 && (g.IsTerminal(g.rules[rp].rhs[i - 1]) || !lam[g.rules[rp].rhs[i - 1]])
    requires forall x: nat | x < |lam| && lam[x] :: g.IsNonterminal(x)
    ensures Le(f0, f) && FirstClosedAt(g, lam, f, rp)
  {
    var rhs := g.rules[rp].rhs;
    forall t: nat | InFirst(g, lam, f, rhs, t) ensures t in f[g.rules[rp].lhs] {
      var j: nat :| Contributes(g, lam, f, rhs, t, j);
    }
  }

  /** Find all nonterminals which generate the empty string, then the first set of every nonterminal. */
  method FindFirstSets(g: Grammar, lambda: array<bool>, firstset: array<set<nat>>)
    requires g.Valid() && lambda.Length == firstset.Length == g.nsymbol
    modifies lambda, firstset
    ensures Exact(g, lambda[..], firstset[..])
    ensures forall x: nat | x < g.nsymbol && lambda[x] :: g.IsNonterminal(x)
  {
    for i := 0 to firstset.Length
      invariant forall k | 0 <= k < i :: firstset[k] == {}
    {
      firstset[i] := {};
    }
    FindLambdas(g, lambda);
    ghost var lam := lambda[..];
    var progress := true;
    while progress
      invariant lambda[..] == lam && LambdaSound(g, lam) && LambdaClosed(g, lam)
      invariant FirstSound(g, firstset[..])
      invariant !progress ==> FirstClosed(g, lam, firstset[..])
      decreases Missing(g, firstset[..]), progress
    {
      progress := false;
      ghost var f0 := firstset[..];
      var rp := 0;
      while rp < |g.rules|
        invariant 0 <= rp <= |g.rules|
        invariant lambda[..] == lam
        invariant FirstSound(g, firstset[..]) && Le(f0, firstset[..])
        invariant !progress <==> firstset[..] == f0
        invariant !progress ==> forall r: nat | r < rp :: FirstClosedAt(g, lam, firstset[..], r)
      {
        ghost var f1 := firstset[..];
        var changed := FirstSetOfRule(g, lambda, firstset, rp);
        if changed {
          ghost var x: nat :| x < |f1| && f1[x] != firstset[x];
          assert f0[x] <= f1[x] <= firstset[x];
          progress := true;
        }
        rp := rp + 1;
      }
      if progress { MissingShrinks(g, f0, firstset[..]); }
    }
    FixpointIsExact(g, lam, firstset[..]);
  }
}
