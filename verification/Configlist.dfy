/**
 `Configlist_closure`: the worklist that closes a configuration list, seeding each
 new configuration's follow set and recording the propagation links inside the state.
 */
module Configlist {
  import opened Grammars
  import opened FirstSets
  import opened Items

  /** What follows the symbol after the dot. */
  function Rest(g: Grammar, it: Item): seq<nat>
    requires it.rule < |g.rules| && it.dot < |g.rules[it.rule].rhs|
  {
    g.rules[it.rule].rhs[it.dot + 1..]
  }

  ghost function ItemsOf(cs: seq<Item>): set<Item>
  {
    set it | it in cs
  }

  ghost predicate NoDup<T>(cs: seq<T>)
  {
    forall i, j | 0 <= i < j < |cs| :: cs[i] != cs[j]
  }

  /** Terminal `t` is spontaneously generated for the initial item of rule `r` by some item of `c`. */
  ghost predicate Spontaneous(g: Grammar, lam: seq<bool>, fst: seq<set<nat>>, c: set<Item>, r: nat, t: nat)
  {
    exists it :: it in c && Calls(g, it, r) && InFirst(g, lam, fst, Rest(g, it), t)
  }

  /** Whatever follows `it` also follows the initial item of rule `r`. */
  ghost predicate PassesOn(g: Grammar, lam: seq<bool>, it: Item, r: nat)
  {
    Calls(g, it, r) && AllLambda(lam, Rest(g, it))
  }

  /** The follow set that a configuration starts with, before propagation. */
  ghost predicate Seeded(g: Grammar, lam: seq<bool>, fst: seq<set<nat>>, c: set<Item>, seed: map<Item, set<nat>>, it: Item, t: nat)
  {
    (it in seed && t in seed[it]) || (it.dot == 0 && Spontaneous(g, lam, fst, c, it.rule, t))
  }

  /**
   The scan of what comes after the symbol at the dot: the terminals that can begin
   it, and whether the whole of it can vanish.
   */
  method FirstOfRest(g: Grammar, lam: seq<bool>, fst: seq<set<nat>>, it: Item) returns (s: set<nat>, toEnd: bool)
    requires g.Valid() && |lam| == |fst| == g.nsymbol
    requires forall x: nat | x < |lam| && lam[x] :: g.IsNonterminal(x)
    requires it.rule < |g.rules| && it.dot < |g.rules[it.rule].rhs|
    ensures forall t: nat :: t in s <==> InFirst(g, lam, fst, Rest(g, it), t)
    ensures toEnd <==> AllLambda(lam, Rest(g, it))
  {
    var rest := Rest(g, it);
    assert g.ValidRule(g.rules[it.rule]);
    forall k | 0 <= k < |rest| ensures rest[k] < g.nsymbol { assert rest[k] == g.rules[it.rule].rhs[it.dot + 1 + k]; }
    s := {};
    var i := 0;
    while i < |rest|
      invariant 0 <= i <= |rest|
      invariant AllLambda(lam, rest[..i])
      invariant forall t: nat :: t in s <==> exists j: nat :: j < i && Contributes(g, lam, fst, rest, t, j)
    {
      var xsp := rest[i];
      assert rest[..i + 1] == rest[..i] + [xsp];
      ghost var s0 := s;
      if g.IsTerminal(xsp) {
        s := s + {xsp};
      } else {
        s := s + fst[xsp];
      }
      forall t: nat ensures t in s <==> exists j: nat :: j < i + 1 && Contributes(g, lam, fst, rest, t, j) {
        if t in s && t !in s0 { assert Contributes(g, lam, fst, rest, t, i); }
      }
      if g.IsTerminal(xsp) || !lam[xsp] {
        forall j: nat, t: nat | Contributes(g, lam, fst, rest, t, j) ensures j < i + 1 { }
        return s, false;
      }
      i := i + 1;
    }
    assert rest[..i] == rest;
    toEnd := true;
  }

  method Find(cs: seq<Item>, it: Item) returns (found: bool)
    ensures found <==> it in cs
  {
    for i := 0 to |cs|
      invariant it !in cs[..i]
    {
      if cs[i] == it { return true; }
    }
    return false;
  }

  /** The initial items that `cfp` calls, for rules below `n`. */
  ghost function CalleesBelow(g: Grammar, cfp: Item, n: nat): set<Item>
  {
    set r: nat | r < n && Calls(g, cfp, r) :: Item(r, 0)
  }

  ghost function Callees(g: Grammar, cfp: Item): set<Item>
  {
    CalleesBelow(g, cfp, |g.rules|)
  }

  function Fws(fws: map<Item, set<nat>>, it: Item): set<nat>
  {
    if it in fws then fws[it] else {}
  }

  /**
   `Configlist_add` for every rule of the symbol after the dot of `cfp`: the callees
   that are not listed yet are appended.
   */
  method AddCallees(g: Grammar, current: seq<Item>, cfp: Item, sp: nat) returns (current': seq<Item>, callees: set<Item>)
    requires NoDup(current) && HasNext(g, cfp, sp)
    ensures current <= current' && NoDup(current')
    ensures ItemsOf(current') == ItemsOf(current) + callees
    ensures callees == Callees(g, cfp)
  {
    current', callees := current, {};
    var r := 0;
    while r < |g.rules|
      invariant 0 <= r <= |g.rules|
      invariant current <= current' && NoDup(current')
      invariant ItemsOf(current') == ItemsOf(current) + callees
      invariant callees == CalleesBelow(g, cfp, r)
    {
      if g.rules[r].lhs == sp {
        assert CalleesBelow(g, cfp, r + 1) == CalleesBelow(g, cfp, r) + {Item(r, 0)};
        var found := Find(current', Item(r, 0));
        ghost var c1 := current';
        if !found { current' := current' + [Item(r, 0)]; }
        assert ItemsOf(current') == ItemsOf(c1) + {Item(r, 0)};
        callees := callees + {Item(r, 0)};
      } else {
        assert CalleesBelow(g, cfp, r + 1) == CalleesBelow(g, cfp, r);
      }
      r := r + 1;
    }
  }

  /** The follow sets after every callee has received the terminals `s`. */
  function AddAll(fws: map<Item, set<nat>>, callees: set<Item>, s: set<nat>): map<Item, set<nat>>
  {
    map it | it in fws.Keys + callees :: Fws(fws, it) + (if it in callees then s else {})
  }

  // ---------------------------------------------------------------------------
  // What the worklist keeps
  // ---------------------------------------------------------------------------

  ghost predicate CalleesIn(g: Grammar, done: set<Item>, c: set<Item>)
  {
    forall it | it in done :: Callees(g, it) <= c
  }

  /** Every closed set around the basis contains `c`. */
  ghost predicate Minimal(g: Grammar, b: set<Item>, c: set<Item>)
  {
    forall d | b <= d && Closed(g, d) :: c <= d
  }

  ghost predicate SeededAll(g: Grammar, lam: seq<bool>, fst: seq<set<nat>>, seed: map<Item, set<nat>>, fws: map<Item, set<nat>>, done: set<Item>)
  {
    forall it, t: nat | it in fws :: t in fws[it] <==> Seeded(g, lam, fst, done, seed, it, t)
  }

  ghost predicate Linked(g: Grammar, lam: seq<bool>, fplp: set<(Item, Item)>, done: set<Item>)
  {
    forall a, b :: (a, b) in fplp <==> a in done && b.dot == 0 && PassesOn(g, lam, a, b.rule)
  }

  lemma CalleeIsCalled(g: Grammar, it: Item, c: Item)
    ensures c in Callees(g, it) <==> c.dot == 0 && Calls(g, it, c.rule)
  {
  }

  lemma MinimalStep(g: Grammar, b: set<Item>, c: set<Item>, cfp: Item)
    requires Minimal(g, b, c) && cfp in c
    ensures Minimal(g, b, c + Callees(g, cfp))
  {
    forall d | b <= d && Closed(g, d) ensures Callees(g, cfp) <= d {
      forall x | x in Callees(g, cfp) ensures x in d { CalleeIsCalled(g, cfp, x); }
    }
  }

  lemma LinkedStep(g: Grammar, lam: seq<bool>, fplp: set<(Item, Item)>, fplp': set<(Item, Item)>, done: set<Item>, cfp: Item, toEnd: bool)
    requires Linked(g, lam, fplp, done)
    requires cfp.rule < |g.rules| && cfp.dot < |g.rules[cfp.rule].rhs| && (toEnd <==> AllLambda(lam, Rest(g, cfp)))
    requires fplp' == if toEnd then fplp + (set b | b in Callees(g, cfp) :: (cfp, b)) else fplp
    ensures Linked(g, lam, fplp', done + {cfp})
  {
    forall a, b: Item ensures (a, b) in fplp' <==> a in done + {cfp} && b.dot == 0 && PassesOn(g, lam, a, b.rule) {
      CalleeIsCalled(g, cfp, b);
    }
  }

  lemma SeededStep(g: Grammar, lam: seq<bool>, fst: seq<set<nat>>, seed: map<Item, set<nat>>,
                   fws: map<Item, set<nat>>, fws': map<Item, set<nat>>, done: set<Item>, cfp: Item, s: set<nat>)
    requires SeededAll(g, lam, fst, seed, fws, done) && CalleesIn(g, done, fws.Keys) && seed.Keys <= fws.Keys
    requires cfp.rule < |g.rules| && cfp.dot < |g.rules[cfp.rule].rhs|
    requires forall t: nat :: t in s <==> InFirst(g, lam, fst, Rest(g, cfp), t)
    requires fws' == AddAll(fws, Callees(g, cfp), s)
    ensures SeededAll(g, lam, fst, seed, fws', done + {cfp})
  {
    forall it, t: nat | it in fws' ensures t in fws'[it] <==> Seeded(g, lam, fst, done + {cfp}, seed, it, t) {
      CalleeIsCalled(g, cfp, it);
      assert Spontaneous(g, lam, fst, done + {cfp}, it.rule, t) <==>
             Spontaneous(g, lam, fst, done, it.rule, t) || (Calls(g, cfp, it.rule) && t in s);
      if it !in fws && it.dot == 0 {
        forall i | i in done ensures !Calls(g, i, it.rule) { CalleeIsCalled(g, i, it); }
      }
    }
  }

  lemma NothingToCall(g: Grammar, lam: seq<bool>, fst: seq<set<nat>>, seed: map<Item, set<nat>>,
                      fws: map<Item, set<nat>>, fplp: set<(Item, Item)>, done: set<Item>, cfp: Item)
    requires SeededAll(g, lam, fst, seed, fws, done) && Linked(g, lam, fplp, done)
    requires Complete(g, cfp)
    ensures SeededAll(g, lam, fst, seed, fws, done + {cfp}) && Linked(g, lam, fplp, done + {cfp}) && Callees(g, cfp) == {}
  {
    forall it, t: nat | it in fws ensures t in fws[it] <==> Seeded(g, lam, fst, done + {cfp}, seed, it, t) {
      assert Spontaneous(g, lam, fst, done + {cfp}, it.rule, t) <==> Spontaneous(g, lam, fst, done, it.rule, t);
    }
  }

  lemma CalleesInIsClosed(g: Grammar, c: set<Item>)
    requires CalleesIn(g, c, c)
    ensures Closed(g, c)
  {
    forall it, r: nat | it in c && Calls(g, it, r) ensures Item(r, 0) in c { CalleeIsCalled(g, it, Item(r, 0)); }
  }

  lemma CalleesAreItems(g: Grammar, cfp: Item)
    ensures ItemSet(g, Callees(g, cfp))
  {
  }

  ghost predicate Inv(g: Grammar, lam: seq<bool>, fst: seq<set<nat>>, b: set<Item>, seed: map<Item, set<nat>>,
                      c: set<Item>, fws: map<Item, set<nat>>, fplp: set<(Item, Item)>, done: set<Item>)
  {
    && b <= c == fws.Keys && done <= c && ItemSet(g, c)
    && Minimal(g, b, c) && CalleesIn(g, done, c)
    && SeededAll(g, lam, fst, seed, fws, done) && Linked(g, lam, fplp, done)
  }

  lemma InvStep(g: Grammar, lam: seq<bool>, fst: seq<set<nat>>, b: set<Item>, seed: map<Item, set<nat>>,
                c: set<Item>, fws: map<Item, set<nat>>, fplp: set<(Item, Item)>, done: set<Item>,
                cfp: Item, s: set<nat>, toEnd: bool, fplp': set<(Item, Item)>)
    requires Inv(g, lam, fst, b, seed, c, fws, fplp, done) && seed.Keys <= b
    requires cfp in c && cfp.dot < |g.rules[cfp.rule].rhs| && (toEnd <==> AllLambda(lam, Rest(g, cfp)))
    requires forall t: nat :: t in s <==> InFirst(g, lam, fst, Rest(g, cfp), t)
    requires fplp' == if toEnd then fplp + (set b | b in Callees(g, cfp) :: (cfp, b)) else fplp
    ensures Inv(g, lam, fst, b, seed, c + Callees(g, cfp), AddAll(fws, Callees(g, cfp), s), fplp', done + {cfp})
  {
    MinimalStep(g, b, c, cfp);
    SeededStep(g, lam, fst, seed, fws, AddAll(fws, Callees(g, cfp), s), done, cfp, s);
    LinkedStep(g, lam, fplp, fplp', done, cfp, toEnd);
    CalleesAreItems(g, cfp);
  }

  /**
   From the configurations of `basis`, all that they lead to before anything is read.  `current` is the list in
   the order the configurations were added, `fws` their initial follow sets and
   `fplp` the propagation links between them.
   */
  method Closure(g: Grammar, lam: seq<bool>, fst: seq<set<nat>>, basis: seq<Item>, seed: map<Item, set<nat>>)
      returns (current: seq<Item>, fws: map<Item, set<nat>>, fplp: set<(Item, Item)>)
    requires g.Valid() && |lam| == |fst| == g.nsymbol
    requires forall x: nat | x < |lam| && lam[x] :: g.IsNonterminal(x)
    requires NoDup(basis) && ItemSet(g, ItemsOf(basis)) && seed.Keys == ItemsOf(basis)
    ensures basis <= current && NoDup(current) && ItemSet(g, ItemsOf(current))
    ensures ItemsOf(current) == ClosureOf(g, ItemsOf(basis))
    ensures fws.Keys == ItemsOf(current)
    ensures forall it, t: nat | it in fws :: t in fws[it] <==> Seeded(g, lam, fst, ItemsOf(current), seed, it, t)
    ensures forall a, b :: (a, b) in fplp <==> a in ItemsOf(current) && b.dot == 0 && PassesOn(g, lam, a, b.rule)
  {
    current, fws, fplp := basis, seed, {};
    ghost var b := ItemsOf(basis);
    ghost var done: set<Item> := {};
    var k := 0;
    while k < |current|
      invariant 0 <= k <= |current| && done == ItemsOf(current[..k])
      invariant basis <= current && NoDup(current)
      invariant Inv(g, lam, fst, b, seed, ItemsOf(current), fws, fplp, done)
      decreases AllItems(g) - done
    {
      ghost var c0, l0 := current, fplp;
      var cfp := current[k];
      DoneGrows(current, k);
      AllItemsHasAll(g, cfp);
      if cfp.dot >= |g.rules[cfp.rule].rhs| {
        NothingToCall(g, lam, fst, seed, fws, fplp, done, cfp);
      } else {
        var s, toEnd := FirstOfRest(g, lam, fst, cfp);
        var callees;
        current, callees := AddCallees(g, current, cfp, g.rules[cfp.rule].rhs[cfp.dot]);
        if toEnd { fplp := fplp + (set b | b in callees :: (cfp, b)); }
        InvStep(g, lam, fst, b, seed, ItemsOf(c0), fws, l0, done, cfp, s, toEnd, fplp);
        fws := AddAll(fws, callees, s);
      }
      SamePrefix(c0, current, k + 1);
      done := done + {cfp};
      k := k + 1;
    }
    assert current[..k] == current;
    CalleesInIsClosed(g, done);
    ClosureIsUnique(g, b, done);
  }

  lemma SamePrefix(a: seq<Item>, b: seq<Item>, k: nat)
    requires a <= b && k <= |a|
    ensures a[..k] == b[..k]
  {
  }

  lemma DoneGrows(cs: seq<Item>, k: nat)
    requires k < |cs| && NoDup(cs)
    ensures ItemsOf(cs[..k + 1]) == ItemsOf(cs[..k]) + {cs[k]}
    ensures cs[k] !in ItemsOf(cs[..k]) && cs[k] in ItemsOf(cs)
  {
    assert cs[..k + 1] == cs[..k] + [cs[k]];
  }
}
