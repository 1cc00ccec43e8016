/**
 A state has an action for every token that can come next: if a configuration of the state
 can be followed by the token, the state shifts it or reduces on it.
 */
module ActionsExist {
  import opened Grammars
  import opened FirstSets
  import opened Items
  import opened Configlist
  import opened Actions
  import opened States
  import opened FindActions

  /** The state has an action on `t` other than the reduction by `r`. */
  ghost predicate Acts(g: Grammar, st: State, la: map<Item, set<nat>>, start: bool, t: nat, r: nat)
  {
    exists b :: IsRaw(g, st, la, start, b) && b.sp == t && b.kind != REDUCE(r)
  }

  /** The configurations of a state are closed under calls, and so are their lookaheads; terminals after a dot are shifted. */
  ghost predicate RowView(g: Grammar, lam: seq<bool>, fst: seq<set<nat>>, st: State, la: map<Item, set<nat>>)
  {
    && (forall k | 0 <= k < |st.ap| :: st.ap[k].kind.SHIFT?)
    && (forall it, x: nat | it in la && HasNext(g, it, x) :: HasShift(st, x))
    && (forall it, q: nat | it in la && Calls(g, it, q) :: Item(q, 0) in la)
    && (forall it, q: nat, t: nat | it in la && Calls(g, it, q) && InFirst(g, lam, fst, Rest(g, it), t) :: t in la[Item(q, 0)])
    && (forall it, q: nat | it in la && PassesOn(g, lam, it, q) :: la[it] <= la[Item(q, 0)])
    && (forall it, t: nat | it in la && t in la[it] :: g.IsTerminal(t))
  }

  /** What comes after the symbol at the dot can begin with `t`, or vanish before `t`. */
  ghost predicate SeesAfter(g: Grammar, lam: seq<bool>, fst: seq<set<nat>>, la: map<Item, set<nat>>, it: Item, t: nat)
  {
    && it in la && it.rule < |g.rules| && it.dot < |g.rules[it.rule].rhs|
    && (InFirst(g, lam, fst, Rest(g, it), t) || (AllLambda(lam, Rest(g, it)) && t in la[it]))
  }

  /** The state calls `x`, and `t` can come after it. */
  ghost predicate CalledWith(g: Grammar, lam: seq<bool>, fst: seq<set<nat>>, la: map<Item, set<nat>>, x: nat, t: nat)
  {
    exists it :: HasNext(g, it, x) && SeesAfter(g, lam, fst, la, it, t)
  }

  lemma CalleeSees(g: Grammar, lam: seq<bool>, fst: seq<set<nat>>, st: State, la: map<Item, set<nat>>, q: nat, t: nat)
    requires RowView(g, lam, fst, st, la) && q < |g.rules| && CalledWith(g, lam, fst, la, g.rules[q].lhs, t)
    ensures Item(q, 0) in la && t in la[Item(q, 0)]
  {
    var it :| HasNext(g, it, g.rules[q].lhs) && SeesAfter(g, lam, fst, la, it, t);
    assert Calls(g, it, q);
    if AllLambda(lam, Rest(g, it)) { assert PassesOn(g, lam, it, q); }
  }

  lemma ReductionActs(g: Grammar, st: State, la: map<Item, set<nat>>, start: bool, it: Item, t: nat, r: nat)
    requires it in la && Complete(g, it) && t in la[it] && g.IsTerminal(t) && it.rule != r
    ensures Acts(g, st, la, start, t, r)
  {
    assert it == Item(it.rule, |g.rules[it.rule].rhs|);
    assert IsRaw(g, st, la, start, Action(t, REDUCE(it.rule)));
  }

  lemma ShiftActs(g: Grammar, lam: seq<bool>, fst: seq<set<nat>>, st: State, la: map<Item, set<nat>>, start: bool, it: Item, t: nat, r: nat)
    requires RowView(g, lam, fst, st, la) && it in la && HasNext(g, it, t)
    ensures Acts(g, st, la, start, t, r)
  {
    assert HasShift(st, t);
    var k :| 0 <= k < |st.ap| && st.ap[k].sp == t;
    assert IsRaw(g, st, la, start, st.ap[k]);
  }

  lemma AllLambdaTail(lam: seq<bool>, a: seq<nat>)
    requires a != []
    ensures AllLambda(lam, a) <==> a[0] < |lam| && lam[a[0]] && AllLambda(lam, a[1..])
  {
    if a[0] < |lam| && lam[a[0]] && AllLambda(lam, a[1..]) {
      forall i | 0 <= i < |a| ensures a[i] < |lam| && lam[a[i]] { if i > 0 { assert a[1..][i - 1] == a[i]; } }
    }
    if AllLambda(lam, a) {
      forall i | 0 <= i < |a[1..]| ensures a[1..][i] < |lam| && lam[a[1..][i]] { assert a[1..][i] == a[i + 1]; }
    }
  }

  /** The nullable symbols that, if the state calls them before `t`, have an action on `t`. */
  ghost function ActingLambda(g: Grammar, lam: seq<bool>, fst: seq<set<nat>>, st: State, la: map<Item, set<nat>>, start: bool, t: nat, r: nat): (lam': seq<bool>)
    ensures |lam'| == |lam|
  {
    seq(|lam|, x requires 0 <= x < |lam| => lam[x] && (CalledWith(g, lam, fst, la, x, t) ==> Acts(g, st, la, start, t, r)))
  }

  lemma ActingIsClosed(g: Grammar, lam: seq<bool>, fst: seq<set<nat>>, st: State, la: map<Item, set<nat>>, start: bool, t: nat, r: nat, q: nat)
    requires g.Valid() && |lam| == g.nsymbol && LambdaClosed(g, lam) && RowView(g, lam, fst, st, la) && q < |g.rules|
    requires r < |g.rules| && g.rules[r].rhs != []
    ensures LambdaClosedAt(g, ActingLambda(g, lam, fst, st, la, start, t, r), q)
  {
    var lam' := ActingLambda(g, lam, fst, st, la, start, t, r);
    var rhs := g.rules[q].rhs;
    assert g.ValidRule(g.rules[q]) && LambdaClosedAt(g, lam, q);
    if AllLambda(lam', rhs) && CalledWith(g, lam, fst, la, g.rules[q].lhs, t) {
      CalleeSees(g, lam, fst, st, la, q, t);
      if rhs == [] {
        ReductionActs(g, st, la, start, Item(q, 0), t, r);
      } else {
        assert AllLambda(lam, rhs);
        AllLambdaTail(lam, rhs);
        assert Rest(g, Item(q, 0)) == rhs[1..] && HasNext(g, Item(q, 0), rhs[0]) && SeesAfter(g, lam, fst, la, Item(q, 0), t);
        assert lam'[rhs[0]];
      }
    }
  }

  /** A nullable symbol that the state calls before `t`: somewhere below it an empty rule is reduced by on `t`. */
  lemma NullableActs(g: Grammar, lam: seq<bool>, fst: seq<set<nat>>, st: State, la: map<Item, set<nat>>, start: bool, x: nat, t: nat, r: nat)
    requires g.Valid() && |lam| == |fst| == g.nsymbol && Exact(g, lam, fst) && LambdaClosed(g, lam) && RowView(g, lam, fst, st, la)
    requires r < |g.rules| && g.rules[r].rhs != [] && x < |lam| && lam[x] && CalledWith(g, lam, fst, la, x, t)
    ensures Acts(g, st, la, start, t, r)
  {
    var lam' := ActingLambda(g, lam, fst, st, la, start, t, r);
    forall q: nat | q < |g.rules| ensures LambdaClosedAt(g, lam', q) { ActingIsClosed(g, lam, fst, st, la, start, t, r, q); }
    assert Nullable(g, x);
    var n: nat :| DerivesIn(g, [x], [], n);
    NullableIsLambda(g, lam', [x], n);
    assert [x][0] == x;
  }

  /** The first sets, without the tokens that the state does not act on, for the symbols that it calls. */
  ghost function ActingFirst(g: Grammar, lam: seq<bool>, fst: seq<set<nat>>, st: State, la: map<Item, set<nat>>, start: bool, r: nat): (fst': seq<set<nat>>)
    ensures |fst'| == |fst|
  {
    seq(|fst|, x requires 0 <= x < |fst| => set t | t in fst[x] && (IsCalled(g, la, x) ==> Acts(g, st, la, start, t, r)))
  }

  ghost predicate IsCalled(g: Grammar, la: map<Item, set<nat>>, x: nat)
  {
    exists it :: it in la && HasNext(g, it, x)
  }

  lemma FirstTail(g: Grammar, lam: seq<bool>, fst: seq<set<nat>>, a: seq<nat>, t: nat, j: nat)
    requires Contributes(g, lam, fst, a, t, j) && j > 0
    ensures a[0] < |lam| && lam[a[0]] && Contributes(g, lam, fst, a[1..], t, j - 1)
  {
    assert a[..j][0] == a[0] && a[1..][..j - 1] == a[..j][1..];
    AllLambdaTail(lam, a[..j]);
  }

  lemma ActingFirstIsClosed(g: Grammar, lam: seq<bool>, fst: seq<set<nat>>, st: State, la: map<Item, set<nat>>, start: bool, r: nat, q: nat, t: nat)
    requires g.Valid() && |lam| == |fst| == g.nsymbol && Exact(g, lam, fst) && LambdaClosed(g, lam) && FirstClosed(g, lam, fst) && RowView(g, lam, fst, st, la)
    requires r < |g.rules| && g.rules[r].rhs != [] && q < |g.rules| && InFirst(g, lam, ActingFirst(g, lam, fst, st, la, start, r), g.rules[q].rhs, t)
    ensures t in ActingFirst(g, lam, fst, st, la, start, r)[g.rules[q].lhs]
  {
    var fst', rhs := ActingFirst(g, lam, fst, st, la, start, r), g.rules[q].rhs;
    var j: nat :| Contributes(g, lam, fst', rhs, t, j);
    assert g.ValidRule(g.rules[q]);
    assert Contributes(g, lam, fst, rhs, t, j);
    assert FirstClosedAt(g, lam, fst, q);
    if IsCalled(g, la, g.rules[q].lhs) {
      var it0 :| it0 in la && HasNext(g, it0, g.rules[q].lhs);
      assert Calls(g, it0, q);
      CalledRuleActs(g, lam, fst, st, la, start, r, q, t, j);
    }
  }

  lemma CalledRuleActs(g: Grammar, lam: seq<bool>, fst: seq<set<nat>>, st: State, la: map<Item, set<nat>>, start: bool, r: nat, q: nat, t: nat, j: nat)
    requires g.Valid() && |lam| == |fst| == g.nsymbol && Exact(g, lam, fst) && LambdaClosed(g, lam) && RowView(g, lam, fst, st, la)
    requires r < |g.rules| && g.rules[r].rhs != [] && q < |g.rules| && Item(q, 0) in la
    requires Contributes(g, lam, ActingFirst(g, lam, fst, st, la, start, r), g.rules[q].rhs, t, j) && Contributes(g, lam, fst, g.rules[q].rhs, t, j)
    ensures Acts(g, st, la, start, t, r)
  {
    var rhs := g.rules[q].rhs;
    assert HasNext(g, Item(q, 0), rhs[0]);
    if j == 0 {
      if g.IsTerminal(rhs[0]) { ShiftActs(g, lam, fst, st, la, start, Item(q, 0), t, r); } else { assert IsCalled(g, la, rhs[0]); }
    } else {
      FirstTail(g, lam, fst, rhs, t, j);
      assert Rest(g, Item(q, 0)) == rhs[1..] && InFirst(g, lam, fst, rhs[1..], t);
      assert SeesAfter(g, lam, fst, la, Item(q, 0), t);
      NullableActs(g, lam, fst, st, la, start, rhs[0], t, r);
    }
  }

  /** A token that a symbol called by the state can begin with. */
  lemma FirstActs(g: Grammar, lam: seq<bool>, fst: seq<set<nat>>, st: State, la: map<Item, set<nat>>, start: bool, x: nat, t: nat, r: nat)
    requires g.Valid() && |lam| == |fst| == g.nsymbol && Exact(g, lam, fst) && LambdaClosed(g, lam) && FirstClosed(g, lam, fst) && RowView(g, lam, fst, st, la)
    requires r < |g.rules| && g.rules[r].rhs != [] && g.IsNonterminal(x) && IsCalled(g, la, x) && t in fst[x]
    ensures Acts(g, st, la, start, t, r)
  {
    var fst' := ActingFirst(g, lam, fst, st, la, start, r);
    forall q: nat | q < |g.rules| ensures FirstClosedAt(g, lam, fst', q) {
      forall t: nat | InFirst(g, lam, fst', g.rules[q].rhs, t) ensures t in fst'[g.rules[q].lhs] { ActingFirstIsClosed(g, lam, fst, st, la, start, r, q, t); }
    }
    assert g.IsTerminal(t) && Begins(g, x, t);
    var b :| Derives(g, [x], [t] + b);
    var n: nat :| DerivesIn(g, [x], [t] + b, n);
    BeginsIsFirst(g, lam, fst', [x], [t] + b, n);
    var j: nat :| Contributes(g, lam, fst', [x], t, j);
  }

  /** What is after the dot of a configuration. */
  function Ahead(g: Grammar, it: Item): seq<nat>
    requires ValidItem(g, it)
  {
    g.rules[it.rule].rhs[it.dot..]
  }

  /** If `t` can come next for a configuration, other than by reducing by `r`, the state has an action on it, other than that. */
  lemma NextTokenActs(g: Grammar, lam: seq<bool>, fst: seq<set<nat>>, st: State, la: map<Item, set<nat>>, start: bool, it: Item, t: nat, r: nat)
    requires g.Valid() && |lam| == |fst| == g.nsymbol && Exact(g, lam, fst) && LambdaClosed(g, lam) && FirstClosed(g, lam, fst) && RowView(g, lam, fst, st, la)
    requires r < |g.rules| && g.rules[r].rhs != [] && it in la && ValidItem(g, it) && (it.rule == r ==> it.dot < |g.rules[r].rhs|)
    requires InFirst(g, lam, fst, Ahead(g, it), t) || (AllLambda(lam, Ahead(g, it)) && t in la[it])
    ensures Acts(g, st, la, start, t, r)
  {
    var ahead := Ahead(g, it);
    if ahead == [] {
      ReductionActs(g, st, la, start, it, t, r);
    } else {
      var x := ahead[0];
      assert HasNext(g, it, x) && Rest(g, it) == ahead[1..] && g.ValidRule(g.rules[it.rule]);
      AllLambdaTail(lam, ahead);
      if InFirst(g, lam, fst, ahead, t) {
        var j: nat :| Contributes(g, lam, fst, ahead, t, j);
        if j == 0 {
          if g.IsTerminal(x) { ShiftActs(g, lam, fst, st, la, start, it, t, r); } else { FirstActs(g, lam, fst, st, la, start, x, t, r); }
        } else {
          FirstTail(g, lam, fst, ahead, t, j);
          assert SeesAfter(g, lam, fst, la, it, t);
          NullableActs(g, lam, fst, st, la, start, x, t, r);
        }
      } else {
        assert SeesAfter(g, lam, fst, la, it, t);
        NullableActs(g, lam, fst, st, la, start, x, t, r);
      }
    }
  }
}
