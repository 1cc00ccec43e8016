/**
 Configurations (LR(0) items), their closure and the goto kernel: the mathematics
 that the state construction is measured against.
 */
module Items {
  import opened Grammars

  /** A production with a dot showing how much of its right-hand side has been processed. */
  datatype Item = Item(rule: nat, dot: nat)

  predicate ValidItem(g: Grammar, it: Item)
  {
    it.rule < |g.rules| && it.dot <= |g.rules[it.rule].rhs|
  }

  /** The symbol right after the dot is `x`. */
  predicate HasNext(g: Grammar, it: Item, x: nat)
  {
    it.rule < |g.rules| && it.dot < |g.rules[it.rule].rhs| && g.rules[it.rule].rhs[it.dot] == x
  }

  /** The dot is at the extreme right. */
  predicate Complete(g: Grammar, it: Item)
  {
    it.rule < |g.rules| && it.dot == |g.rules[it.rule].rhs|
  }

  function Advance(it: Item): Item
  {
    Item(it.rule, it.dot + 1)
  }

  /** `it` asks for the closure to contain the initial item of rule `r`. */
  predicate Calls(g: Grammar, it: Item, r: nat)
  {
    r < |g.rules| && HasNext(g, it, g.rules[r].lhs)
  }

  ghost function AllItems(g: Grammar): set<Item>
  {
    set r: nat, d: nat | r < |g.rules| && d <= |g.rules[r].rhs| :: Item(r, d)
  }

  ghost predicate ItemSet(g: Grammar, s: set<Item>)
  {
    forall it | it in s :: ValidItem(g, it)
  }

  ghost predicate Closed(g: Grammar, s: set<Item>)
  {
    forall it, r: nat | it in s && Calls(g, it, r) :: Item(r, 0) in s
  }

  /** `c` is the least closed set that contains `b`. */
  ghost predicate IsClosure(g: Grammar, b: set<Item>, c: set<Item>)
  {
    && b <= c
    && Closed(g, c)
    && forall d | b <= d && Closed(g, d) :: c <= d
  }

  ghost predicate InEveryClosed(g: Grammar, b: set<Item>, it: Item)
  {
    forall d | b <= d && Closed(g, d) :: it in d
  }

  ghost function ClosureOf(g: Grammar, b: set<Item>): set<Item>
  {
    set it | it in AllItems(g) && InEveryClosed(g, b, it)
  }

  lemma AllItemsHasAll(g: Grammar, it: Item)
    ensures it in AllItems(g) <==> ValidItem(g, it)
  {
  }

  lemma ClosureIsUnique(g: Grammar, b: set<Item>, c: set<Item>)
    requires IsClosure(g, b, c) && ItemSet(g, c)
    ensures c == ClosureOf(g, b)
  {
    forall it | it in c ensures it in ClosureOf(g, b) {
      AllItemsHasAll(g, it);
    }
    forall it | it in ClosureOf(g, b) ensures it in c {
      assert InEveryClosed(g, b, it);
    }
  }

  lemma ClosureOfIsClosure(g: Grammar, b: set<Item>)
    requires ItemSet(g, b)
    ensures IsClosure(g, b, ClosureOf(g, b)) && ItemSet(g, ClosureOf(g, b))
  {
    var c := ClosureOf(g, b);
    forall it | it in b ensures it in c { AllItemsHasAll(g, it); }
    forall it, r: nat | it in c && Calls(g, it, r) ensures Item(r, 0) in c {
      AllItemsHasAll(g, Item(r, 0));
      forall d | b <= d && Closed(g, d) ensures Item(r, 0) in d { assert it in d; }
    }
    forall it | it in c ensures ValidItem(g, it) { AllItemsHasAll(g, it); }
    forall d | b <= d && Closed(g, d) ensures c <= d {
      forall it | it in c ensures it in d { assert InEveryClosed(g, b, it); }
    }
  }

  /** An item of a closure is a basis item, or an initial item that some item of the closure calls. */
  lemma ClosureOrigin(g: Grammar, b: set<Item>, it: Item)
    requires ItemSet(g, b) && it in ClosureOf(g, b)
    ensures it in b || (it.dot == 0 && exists it0 | it0 in ClosureOf(g, b) :: Calls(g, it0, it.rule))
  {
    ClosureOfIsClosure(g, b);
    var c := ClosureOf(g, b);
    var d := set i | i in c && (i in b || (i.dot == 0 && exists it0 | it0 in c :: Calls(g, it0, i.rule)));
    assert b <= d && Closed(g, d);
    assert it in d;
  }

  /** The basis of the state reached on `x`: every configuration before `x`, moved over it. */
  ghost function Kernel(g: Grammar, c: set<Item>, x: nat): set<Item>
  {
    set it | it in c && HasNext(g, it, x) :: Advance(it)
  }

  lemma KernelItems(g: Grammar, c: set<Item>, x: nat)
    ensures ItemSet(g, Kernel(g, c, x))
    ensures forall it | it in c && HasNext(g, it, x) :: Advance(it) in Kernel(g, c, x)
    ensures forall k | k in Kernel(g, c, x) :: k.dot > 0 && Item(k.rule, k.dot - 1) in c && HasNext(g, Item(k.rule, k.dot - 1), x)
  {
    forall k | k in Kernel(g, c, x)
      ensures ValidItem(g, k) && k.dot > 0 && Item(k.rule, k.dot - 1) in c && HasNext(g, Item(k.rule, k.dot - 1), x)
    {
      var it :| it in c && HasNext(g, it, x) && k == Advance(it);
      assert it == Item(k.rule, k.dot - 1);
    }
  }

  ghost function StartBasis(g: Grammar): set<Item>
  {
    set r: nat | r < |g.rules| && g.rules[r].lhs == g.start :: Item(r, 0)
  }

  /** A collection of bases that is closed under goto. */
  ghost predicate GotoClosed(g: Grammar, bases: set<set<Item>>)
  {
    forall b, x: nat | b in bases && Kernel(g, ClosureOf(g, b), x) != {} :: Kernel(g, ClosureOf(g, b), x) in bases
  }
}
