/**
 LALR(1) grammars, defined by derivations: without state tables, links or propagation.
 A spine is a chain of rules from the start symbol down to an occurrence of a nonterminal
 in which nothing to the left of the chain has been expanded.
 */
module LalrGrammar {
  import opened Grammars
  import opened Items
  import opened Configlist

  /** The basis that the items of the grammar reach over the symbols `x`. */
  ghost function BasisAfter(g: Grammar, x: seq<nat>): set<Item>
  {
    if x == [] then StartBasis(g) else Kernel(g, ClosureOf(g, BasisAfter(g, x[..|x| - 1])), x[|x| - 1])
  }

  /** Rule by rule, the symbol after the dot is expanded next; the last one is `a`. */
  ghost predicate IsSpine(g: Grammar, spine: seq<Item>, a: nat)
    decreases |spine|
  {
    if spine == [] then a == g.start
    else
      var it := spine[|spine| - 1];
      HasNext(g, it, a) && IsSpine(g, spine[..|spine| - 1], g.rules[it.rule].lhs)
  }

  /** What stands to the left of the last symbol of a spine. */
  ghost function Before(g: Grammar, spine: seq<Item>): seq<nat>
    decreases |spine|
  {
    if spine == [] then []
    else Before(g, spine[..|spine| - 1]) + Done(g, spine[|spine| - 1])
  }

  /** What stands to the right of it: what is left of each rule, and `$`. */
  ghost function After(g: Grammar, spine: seq<Item>): seq<nat>
    decreases |spine|
  {
    if spine == [] then [0]
    else ToCome(g, spine[|spine| - 1]) + After(g, spine[..|spine| - 1])
  }

  /** The symbols before the dot. */
  ghost function Done(g: Grammar, it: Item): seq<nat>
  {
    if ValidItem(g, it) then g.rules[it.rule].rhs[..it.dot] else []
  }

  /** The symbols after the one that follows the dot. */
  ghost function ToCome(g: Grammar, it: Item): seq<nat>
  {
    if ValidItem(g, it) && it.dot < |g.rules[it.rule].rhs| then Rest(g, it) else []
  }

  /** A spine ends in the left-hand side of the rule of `it`, and over what is before it and the dot the basis `b` is reached. */
  ghost predicate SpineTo(g: Grammar, spine: seq<Item>, b: set<Item>, it: Item)
  {
    ValidItem(g, it) && IsSpine(g, spine, g.rules[it.rule].lhs) && BasisAfter(g, Before(g, spine) + Done(g, it)) == b
  }

  /** Something derived from `a` begins with `t`. */
  ghost predicate CanBegin(g: Grammar, a: seq<nat>, t: nat)
  {
    exists z :: Derives(g, a, [t] + z)
  }

  /** In the state with basis `b`, the terminal `t` can follow what `it` stands for. */
  ghost predicate Follows(g: Grammar, b: set<Item>, it: Item, t: nat)
  {
    g.IsTerminal(t) && exists spine :: SpineTo(g, spine, b, it) && CanBegin(g, After(g, spine), t)
  }

  ghost predicate CanShift(g: Grammar, b: set<Item>, t: nat)
  {
    exists it :: it in ClosureOf(g, b) && HasNext(g, it, t)
  }

  ghost predicate CanReduce(g: Grammar, b: set<Item>, r: nat, t: nat)
  {
    r < |g.rules| && Follows(g, b, Item(r, |g.rules[r].rhs|), t)
  }

  /** LALR(1): after no prefix are there two things to do on one terminal. */
  ghost predicate IsLalr(g: Grammar)
  {
    forall x: seq<nat>, t: nat, r: nat | CanReduce(g, BasisAfter(g, x), r, t) :: Alone(g, BasisAfter(g, x), r, t)
  }

  ghost predicate Alone(g: Grammar, b: set<Item>, r: nat, t: nat)
  {
    !CanShift(g, b, t) && forall q: nat | CanReduce(g, b, q, t) :: q == r
  }

  // ---------------------------------------------------------------------------
  // Spines are derivations
  // ---------------------------------------------------------------------------

  lemma SpineSplits(g: Grammar, it: Item, a: nat)
    requires HasNext(g, it, a)
    ensures g.rules[it.rule].rhs == Done(g, it) + [a] + ToCome(g, it)
  {
  }

  lemma Regroup(x: seq<nat>, p: seq<nat>, a: seq<nat>, q: seq<nat>, y: seq<nat>)
    ensures x + (p + a + q) + y == (x + p) + a + (q + y)
  {
  }

  /** What a spine stands for is derived from the start symbol and `$`. */
  lemma {:induction false} SpineDerives(g: Grammar, spine: seq<Item>, a: nat)
    requires IsSpine(g, spine, a)
    ensures Derives(g, [g.start, 0], Before(g, spine) + [a] + After(g, spine))
    decreases |spine|
  {
    if spine == [] {
      DerivesRefl(g, [g.start, 0]);
      assert [] + [a] + [0] == [g.start, 0];
    } else {
      var n := |spine| - 1;
      var it, first := spine[n], spine[..n];
      var x, y, rule := Before(g, first), After(g, first), g.rules[it.rule];
      SpineDerives(g, first, rule.lhs);
      SpineSplits(g, it, a);
      DerivesRule(g, it.rule);
      DerivesContext(g, x, [rule.lhs], rule.rhs, y);
      DerivesTrans(g, [g.start, 0], x + [rule.lhs] + y, x + rule.rhs + y);
      Regroup(x, Done(g, it), [a], ToCome(g, it), y);
    }
  }

  /** A lookahead follows its left-hand side in a sentential form. */
  lemma FollowsDerives(g: Grammar, b: set<Item>, r: nat, t: nat) returns (x: seq<nat>, y: seq<nat>)
    requires CanReduce(g, b, r, t)
    ensures BasisAfter(g, x + g.rules[r].rhs) == b && Derives(g, [g.start, 0], x + [g.rules[r].lhs, t] + y)
  {
    var rule, it := g.rules[r], Item(r, |g.rules[r].rhs|);
    var spine :| SpineTo(g, spine, b, it) && CanBegin(g, After(g, spine), t);
    SpineDerives(g, spine, rule.lhs);
    x := Before(g, spine);
    y := NextDerives(g, [g.start, 0], x, rule.lhs, After(g, spine), t);
    assert Done(g, it) == rule.rhs;
  }

  lemma NextDerives(g: Grammar, from: seq<nat>, x: seq<nat>, a: nat, rest: seq<nat>, t: nat) returns (y: seq<nat>)
    requires Derives(g, from, x + [a] + rest) && CanBegin(g, rest, t)
    ensures Derives(g, from, x + [a, t] + y)
  {
    y :| Derives(g, rest, [t] + y);
    DerivesContext(g, x + [a], rest, [t] + y, []);
    assert x + [a] + rest + [] == x + [a] + rest && x + [a] + ([t] + y) + [] == x + [a, t] + y;
    DerivesTrans(g, from, x + [a] + rest, x + [a, t] + y);
  }

  // ---------------------------------------------------------------------------
  // Every item of a state has its spine
  // ---------------------------------------------------------------------------

  ghost predicate HasSpine(g: Grammar, x: seq<nat>, it: Item)
  {
    ValidItem(g, it) && exists spine :: IsSpine(g, spine, g.rules[it.rule].lhs) && Before(g, spine) + Done(g, it) == x
  }

  /** A called rule continues the spine. */
  lemma CalledSpine(g: Grammar, spine: seq<Item>, it: Item, r: nat)
    requires ValidItem(g, it) && IsSpine(g, spine, g.rules[it.rule].lhs) && Calls(g, it, r)
    ensures IsSpine(g, spine + [it], g.rules[r].lhs)
    ensures Before(g, spine + [it]) == Before(g, spine) + Done(g, it) && After(g, spine + [it]) == Rest(g, it) + After(g, spine)
    ensures Before(g, spine + [it]) + Done(g, Item(r, 0)) == Before(g, spine) + Done(g, it)
  {
    assert (spine + [it])[..|spine|] == spine;
  }

  lemma BasisItems(g: Grammar, x: seq<nat>)
    ensures ItemSet(g, BasisAfter(g, x))
  {
    if x != [] { KernelItems(g, ClosureOf(g, BasisAfter(g, x[..|x| - 1])), x[|x| - 1]); }
  }

  lemma {:induction false} ItemHasSpine(g: Grammar, x: seq<nat>, it: Item)
    requires it in ClosureOf(g, BasisAfter(g, x))
    ensures HasSpine(g, x, it)
    decreases |x|
  {
    var b := BasisAfter(g, x);
    BasisItems(g, x);
    ClosureOfIsClosure(g, b);
    var d := set i | i in ClosureOf(g, b) && HasSpine(g, x, i);
    forall i | i in b ensures HasSpine(g, x, i) {
      if x == [] { StartHasSpine(g, i); } else { MovedHasSpine(g, x, i); }
    }
    forall i, r: nat | i in d && Calls(g, i, r) ensures Item(r, 0) in d {
      CalledHasSpine(g, x, i, r);
    }
    assert b <= d && Closed(g, d);
  }

  lemma CalledHasSpine(g: Grammar, x: seq<nat>, it: Item, r: nat)
    requires HasSpine(g, x, it) && Calls(g, it, r)
    ensures HasSpine(g, x, Item(r, 0))
  {
    var spine :| IsSpine(g, spine, g.rules[it.rule].lhs) && Before(g, spine) + Done(g, it) == x;
    CalledSpine(g, spine, it, r);
  }

  lemma StartHasSpine(g: Grammar, it: Item)
    requires it in StartBasis(g)
    ensures HasSpine(g, [], it)
  {
    assert IsSpine(g, [], g.rules[it.rule].lhs) && Before(g, []) + Done(g, it) == [];
  }

  lemma {:induction false} MovedHasSpine(g: Grammar, x: seq<nat>, it: Item)
    requires x != [] && it in BasisAfter(g, x)
    ensures HasSpine(g, x, it)
    decreases |x|, 0
  {
    var n := |x| - 1;
    var i := KernelOrigin(g, ClosureOf(g, BasisAfter(g, x[..n])), x[n], it);
    ItemHasSpine(g, x[..n], i);
    AdvancedSpine(g, x, i);
  }

  lemma KernelOrigin(g: Grammar, c: set<Item>, a: nat, k: Item) returns (it: Item)
    requires k in Kernel(g, c, a)
    ensures it in c && HasNext(g, it, a) && k == Advance(it)
  {
    it :| it in c && HasNext(g, it, a) && k == Advance(it);
  }

  lemma AdvancedSpine(g: Grammar, x: seq<nat>, it: Item)
    requires x != [] && HasSpine(g, x[..|x| - 1], it) && HasNext(g, it, x[|x| - 1])
    ensures HasSpine(g, x, Advance(it))
  {
    var spine :| IsSpine(g, spine, g.rules[it.rule].lhs) && Before(g, spine) + Done(g, it) == x[..|x| - 1];
    DoneAdvanced(g, it, x[|x| - 1]);
    OneMore(Before(g, spine), Done(g, it), x);
    assert Before(g, spine) + Done(g, Advance(it)) == x;
  }

  lemma DoneAdvanced(g: Grammar, it: Item, a: nat)
    requires HasNext(g, it, a)
    ensures Done(g, Advance(it)) == Done(g, it) + [a]
  {
  }

  lemma OneMore(b: seq<nat>, d: seq<nat>, x: seq<nat>)
    requires x != [] && b + d == x[..|x| - 1]
    ensures b + (d + [x[|x| - 1]]) == x
  {
    assert b + (d + [x[|x| - 1]]) == x[..|x| - 1] + [x[|x| - 1]];
  }
}
