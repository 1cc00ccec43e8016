/**
 `FindActions`: add a reduce action for every terminal in the follow set of every
 finished configuration and the accept action of the first state, sort each list and
 resolve its conflicts.
 */
module FindActions {
  import opened Grammars
  import opened Items
  import opened Configlist
  import opened Actions
  import opened States
  import opened Conflicts
  import opened ConflictScan
  import opened MergeSort

  /** The position of a kind in the enumeration of action types. */
  function Rank(k: Kind): nat
  {
    match k
    case SHIFT(_) => 0
    case ACCEPT => 1
    case REDUCE(_) => 2
    case ERROR => 3
    case SSCONFLICT => 4
    case SRCONFLICT => 5
    case RRCONFLICT => 6
    case SH_RESOLVED => 7
    case RD_RESOLVED => 8
    case NOT_USED => 9
    case SHIFTREDUCE(_) => 10
  }

  function RuleIndex(g: Grammar, k: Kind): nat
  {
    match k
    case REDUCE(r) => if r < |g.rules| then g.rules[r].index else 0
    case SHIFTREDUCE(r) => if r < |g.rules| then g.rules[r].index else 0
    case _ => 0
  }

  /** `actioncmp`, up to the addresses that break the remaining ties. */
  function ActionCmp(g: Grammar, a: Action, b: Action): int
  {
    if a.sp != b.sp then a.sp - b.sp
    else if Rank(a.kind) != Rank(b.kind) then Rank(a.kind) - Rank(b.kind)
    else RuleIndex(g, a.kind) - RuleIndex(g, b.kind)
  }

  lemma ActionCmpIsOrder(g: Grammar)
    ensures IsOrder((a: Action, b: Action) => ActionCmp(g, a, b))
  {
  }

  /** The actions of a state before conflicts are looked at. */
  ghost predicate IsRaw(g: Grammar, st: State, la: map<Item, set<nat>>, start: bool, a: Action)
  {
    || a in st.ap
    || (a.kind.REDUCE? && g.IsTerminal(a.sp) && IsReduction(g, la, a.kind.rp, a.sp))
    || (start && a == Action(g.start, ACCEPT))
  }

  ghost predicate IsReduction(g: Grammar, la: map<Item, set<nat>>, r: nat, t: nat)
  {
    r < |g.rules| && Item(r, |g.rules[r].rhs|) in la && t in la[Item(r, |g.rules[r].rhs|)]
  }

  ghost predicate ShiftList(g: Grammar, ap: seq<Action>)
  {
    && (forall k | 0 <= k < |ap| :: ap[k].kind.SHIFT? && ap[k].sp != g.start)
    && (forall j, k | 0 <= j < k < |ap| :: ap[j].sp != ap[k].sp)
  }

  /** No two different actions of the state share a lookahead. */
  ghost predicate ConflictFree(g: Grammar, st: State, la: map<Item, set<nat>>, start: bool)
  {
    forall a, b | IsRaw(g, st, la, start, a) && IsRaw(g, st, la, start, b) && a.sp == b.sp :: a == b
  }

  /** Add the reductions by the rule of one finished configuration. */
  method AddReductions(g: Grammar, fws: set<nat>, r: nat, ap: seq<Action>) returns (ap': seq<Action>)
    requires NoDup(ap) && forall t: nat :: Action(t, REDUCE(r)) !in ap
    ensures NoDup(ap') && |ap'| <= |ap| + g.nterminal
    ensures forall a :: a in ap' <==> a in ap || (a.kind == REDUCE(r) && g.IsTerminal(a.sp) && a.sp in fws)
  {
    ap' := ap;
    var j := 0;
    while j < g.nterminal
      invariant 0 <= j <= g.nterminal && NoDup(ap') && |ap'| <= |ap| + j
      invariant forall a :: a in ap' <==> a in ap || (a.kind == REDUCE(r) && a.sp < j && a.sp in fws)
    {
      if j in fws {
        NoDupPrepend(ap', Action(j, REDUCE(r)));
        ap' := [Action(j, REDUCE(r))] + ap';
      }
      j := j + 1;
    }
  }

  lemma NoDupPrepend<T>(s: seq<T>, x: T)
    requires NoDup(s) && x !in s
    ensures NoDup([x] + s)
  {
  }

  /** All actions of one state. */
  method RawActions(g: Grammar, st: State, la: map<Item, set<nat>>, start: bool) returns (ap: seq<Action>)
    requires ShiftList(g, st.ap) && NoDup(st.cfp) && la.Keys == ItemsOf(st.cfp) && ItemSet(g, ItemsOf(st.cfp))
    ensures NoDup(ap) && |ap| <= |st.ap| + |st.cfp| * g.nterminal + 1
    ensures forall a :: a in ap <==> IsRaw(g, st, la, start, a)
  {
    ap := st.ap;
    var i := 0;
    while i < |st.cfp|
      invariant 0 <= i <= |st.cfp| && NoDup(ap)
      invariant |ap| <= |st.ap| + i * g.nterminal
      invariant forall a :: a in ap <==> a in st.ap || (a.kind.REDUCE? && g.IsTerminal(a.sp) && ReductionBefore(g, st.cfp, la, i, a.kind.rp, a.sp))
    {
      var cfp := st.cfp[i];
      assert cfp in ItemsOf(st.cfp);
      ghost var ap0 := ap;
      if cfp.dot == |g.rules[cfp.rule].rhs| {
        forall t: nat ensures Action(t, REDUCE(cfp.rule)) !in ap {
          assert cfp !in st.cfp[..i];
        }
        ap := AddReductions(g, la[cfp], cfp.rule, ap);
      }
      assert st.cfp[..i + 1] == st.cfp[..i] + [cfp];
      assert i * g.nterminal + g.nterminal == (i + 1) * g.nterminal;
      i := i + 1;
    }
    assert st.cfp[..i] == st.cfp;
    if start {
      NoDupPrepend(ap, Action(g.start, ACCEPT));
      ap := [Action(g.start, ACCEPT)] + ap;
    }
  }

  ghost predicate ReductionBefore(g: Grammar, cfp: seq<Item>, la: map<Item, set<nat>>, i: nat, r: nat, t: nat)
    requires i <= |cfp|
  {
    IsReduction(g, la, r, t) && Item(r, |g.rules[r].rhs|) in cfp[..i]
  }

  /** `Action_sort` keeps the actions and puts them in conflict order. */
  lemma SortedIsGrouped(g: Grammar, raw: seq<Action>, sorted: seq<Action>)
    requires NoDup(raw) && multiset(sorted) == multiset(raw)
    requires Sorted(sorted, (a: Action, b: Action) => ActionCmp(g, a, b))
    requires forall a, b | a in raw && b in raw && a.kind.SHIFT? && b.kind.SHIFT? && a.sp == b.sp :: a == b
    ensures NoDup(sorted) && Grouped(sorted) && forall a :: a in sorted <==> a in raw
  {
    SameElements(raw, sorted);
    forall i, j | 0 <= i < j < |sorted| ensures sorted[i].sp <= sorted[j].sp {
      assert ActionCmp(g, sorted[i], sorted[j]) <= 0;
    }
    forall i, j | 0 <= i < j < |sorted| && sorted[i].sp == sorted[j].sp ensures !sorted[j].kind.SHIFT? {
      assert ActionCmp(g, sorted[i], sorted[j]) <= 0;
      assert sorted[i] in raw && sorted[j] in raw;
    }
  }

  /**
   What `FindActions` leaves for a state: every live action is one the state asks for,
   at most one per lookahead; gotos and the accept action always survive and nothing is
   demoted on their lookaheads; without conflicts everything survives.
   */
  ghost predicate ActionsOK(g: Grammar, st: State, la: map<Item, set<nat>>, start: bool, ap: seq<Action>)
  {
    && (forall k | 0 <= k < |ap| && (Live(ap[k]) || ap[k].kind.ACCEPT?) :: IsRaw(g, st, la, start, ap[k]))
    && (forall k | 0 <= k < |ap| :: !ap[k].kind.SHIFTREDUCE? && !ap[k].kind.NOT_USED?)
    && OneLive(ap)
    && (forall k, l | 0 <= k < l < |ap| && ap[k].kind.ACCEPT? :: !ap[l].kind.ACCEPT?)
    && (forall a | IsRaw(g, st, la, start, a) && a.sp >= g.nterminal :: a in ap)
    && (forall k | 0 <= k < |ap| && ap[k].sp >= g.nterminal :: Live(ap[k]) || ap[k].kind.ACCEPT?)
    && (ConflictFree(g, st, la, start) ==> (forall a | IsRaw(g, st, la, start, a) :: a in ap) && forall k | 0 <= k < |ap| :: ap[k].kind != Kind.ERROR)
  }

  /** The actions of the state, sorted. */
  ghost predicate IsSortedRaw(g: Grammar, st: State, la: map<Item, set<nat>>, start: bool, sorted: seq<Action>)
  {
    && NoDup(sorted) && Sorted(sorted, (a: Action, b: Action) => ActionCmp(g, a, b)) && Grouped(sorted) && Plain(sorted)
    && forall a {:trigger a in sorted} :: a in sorted <==> IsRaw(g, st, la, start, a)
  }

  /** The list is what resolution leaves of the sorted actions of the state. */
  ghost predicate ActionsMade(g: Grammar, st: State, la: map<Item, set<nat>>, start: bool, ap: seq<Action>)
  {
    exists sorted :: IsSortedRaw(g, st, la, start, sorted) && ap == ResolveFrom(g, sorted, 0)
  }

  /** A shift comes before reductions, and the rule that is written first before the others. */
  predicate ComesFirst(g: Grammar, a: Action, b: Action)
  {
    if a.kind.SHIFT? then b.kind.REDUCE?
    else a.kind.REDUCE? && b.kind.REDUCE? && a.kind.rp < |g.rules| && b.kind.rp < |g.rules| && g.rules[a.kind.rp].index < g.rules[b.kind.rp].index
  }

  /** Of the actions of the state on its lookahead, `a` comes first, and no precedence takes it out. */
  ghost predicate IsChosen(g: Grammar, st: State, la: map<Item, set<nat>>, start: bool, a: Action)
  {
    && IsRaw(g, st, la, start, a) && Live(a)
    && forall b | IsRaw(g, st, la, start, b) && Live(b) && b.sp == a.sp && b != a :: ComesFirst(g, a, b) && !Yields(g, a, b)
  }

  /** Where precedence does not take it out, the shift stays, and if there is none, the rule that is written first. */
  lemma OrderDecides(g: Grammar, st: State, la: map<Item, set<nat>>, start: bool, ap: seq<Action>, a: Action)
    requires ActionsMade(g, st, la, start, ap) && IsChosen(g, st, la, start, a)
    ensures a in ap && forall k | 0 <= k < |ap| && ap[k].sp == a.sp && Live(ap[k]) :: ap[k] == a
  {
    var sorted: seq<Action> :| IsSortedRaw(g, st, la, start, sorted) && ap == ResolveFrom(g, sorted, 0);
    assert a in sorted;
    var k :| 0 <= k < |sorted| && sorted[k] == a;
    forall i: nat | i < |sorted| && i != k && sorted[i].sp == a.sp && Live(sorted[i]) ensures k < i && !Yields(g, a, sorted[i]) {
      ChosenIsFirst(g, st, la, start, sorted, k, i);
    }
    FirstWins(g, sorted, k);
    LoopResolves(g, sorted);
  }

  lemma ChosenIsFirst(g: Grammar, st: State, la: map<Item, set<nat>>, start: bool, sorted: seq<Action>, k: nat, i: nat)
    requires IsSortedRaw(g, st, la, start, sorted) && k < |sorted| && IsChosen(g, st, la, start, sorted[k])
    requires i < |sorted| && i != k && sorted[i].sp == sorted[k].sp && Live(sorted[i])
    ensures k < i && !Yields(g, sorted[k], sorted[i])
  {
    assert sorted[i] in sorted && sorted[i] != sorted[k];
    assert ComesFirst(g, sorted[k], sorted[i]) && ActionCmp(g, sorted[k], sorted[i]) < 0;
  }

  /** A goto or the accept action has its lookahead to itself, so it survives. */
  lemma GotoSurvives(g: Grammar, st: State, la: map<Item, set<nat>>, start: bool, sorted: seq<Action>, ap: seq<Action>, a: Action)
    requires g.Valid() && ShiftList(g, st.ap) && forall a :: a in sorted <==> IsRaw(g, st, la, start, a)
    requires Demoted(sorted, ap) && Survivors(sorted, ap)
    requires IsRaw(g, st, la, start, a) && a.sp >= g.nterminal
    ensures a in ap
  {
    var k :| 0 <= k < |sorted| && sorted[k] == a;
    if a.kind.SHIFT? {
      assert HasSurvivor(ap, a.sp);
      var l :| 0 <= l < |ap| && ap[l].sp == a.sp && Live(ap[l]);
      assert ap[l] == sorted[l] && sorted[l] in sorted && IsRaw(g, st, la, start, sorted[l]);
      assert sorted[l] in st.ap && a in st.ap;
    } else {
      assert ap[k] == a;
    }
  }

  lemma GotoIsLive(g: Grammar, st: State, la: map<Item, set<nat>>, start: bool, sorted: seq<Action>, ap: seq<Action>, k: nat)
    requires g.Valid() && ShiftList(g, st.ap) && NoDup(sorted) && forall a :: a in sorted <==> IsRaw(g, st, la, start, a)
    requires Demoted(sorted, ap) && Survivors(sorted, ap) && k < |ap| && ap[k].sp >= g.nterminal
    ensures Live(ap[k]) || ap[k].kind.ACCEPT?
  {
    assert sorted[k] in sorted;
    if sorted[k].kind.SHIFT? {
      assert HasSurvivor(ap, sorted[k].sp);
      var l :| 0 <= l < |ap| && ap[l].sp == sorted[k].sp && Live(ap[l]);
      assert sorted[l] in sorted && IsRaw(g, st, la, start, sorted[l]);
      assert sorted[l] in st.ap && sorted[k] in st.ap;
    }
  }

  lemma LiveIsRaw(g: Grammar, sorted: seq<Action>, ap: seq<Action>)
    requires Plain(sorted) && Demoted(sorted, ap)
    ensures forall k | 0 <= k < |ap| && (Live(ap[k]) || ap[k].kind.ACCEPT?) :: ap[k] == sorted[k]
    ensures forall k | 0 <= k < |ap| :: !ap[k].kind.SHIFTREDUCE? && !ap[k].kind.NOT_USED?
  {
  }

  lemma ResolvedIsOK(g: Grammar, st: State, la: map<Item, set<nat>>, start: bool, sorted: seq<Action>, ap: seq<Action>)
    requires g.Valid() && ShiftList(g, st.ap) && NoDup(sorted) && forall a :: a in sorted <==> IsRaw(g, st, la, start, a)
    requires Plain(sorted) && Demoted(sorted, ap) && Survivors(sorted, ap) && OneLive(ap)
    requires DistinctLookaheads(sorted) ==> ap == sorted
    ensures ActionsOK(g, st, la, start, ap)
  {
    LiveIsRaw(g, sorted, ap);
    forall k | 0 <= k < |ap| && (Live(ap[k]) || ap[k].kind.ACCEPT?) ensures IsRaw(g, st, la, start, ap[k]) {
      assert sorted[k] in sorted;
    }
    forall k, l | 0 <= k < l < |ap| && ap[k].kind.ACCEPT? ensures !ap[l].kind.ACCEPT? {
      assert sorted[k] in sorted && sorted[l] in sorted;
    }
    forall a | IsRaw(g, st, la, start, a) && a.sp >= g.nterminal ensures a in ap {
      GotoSurvives(g, st, la, start, sorted, ap, a);
    }
    forall k | 0 <= k < |ap| && ap[k].sp >= g.nterminal ensures Live(ap[k]) || ap[k].kind.ACCEPT? {
      GotoIsLive(g, st, la, start, sorted, ap, k);
    }
    if ConflictFree(g, st, la, start) {
      forall k, l | 0 <= k < l < |sorted| ensures sorted[k].sp != sorted[l].sp {
        assert sorted[k] in sorted && sorted[l] in sorted;
      }
    }
  }

  /** Sort the raw actions of a state. */
  method ActionSort(g: Grammar, raw: seq<Action>) returns (sorted: seq<Action>)
    requires NoDup(raw) && |raw| < Pow2(LISTSIZE)
    requires forall a, b | a in raw && b in raw && a.kind.SHIFT? && b.kind.SHIFT? && a.sp == b.sp :: a == b
    ensures NoDup(sorted) && Grouped(sorted) && |sorted| == |raw| && forall a :: a in sorted <==> a in raw
    ensures Sorted(sorted, (a: Action, b: Action) => ActionCmp(g, a, b))
  {
    sorted := MSort(raw, (a: Action, b: Action) => ActionCmp(g, a, b));
    ActionCmpIsOrder(g);
    SortedIsGrouped(g, raw, sorted);
    assert |multiset(raw)| == |raw| && |multiset(sorted)| == |sorted|;
  }

  /** The actions of one state, sorted and with conflicts resolved. */
  method ActionsOf(g: Grammar, st: State, la: map<Item, set<nat>>, start: bool) returns (ap: seq<Action>, nconflict: nat)
    requires g.Valid() && ShiftList(g, st.ap) && NoDup(st.cfp) && la.Keys == ItemsOf(st.cfp) && ItemSet(g, ItemsOf(st.cfp))
    requires |st.ap| + |st.cfp| * g.nterminal + 1 < Pow2(LISTSIZE)
    ensures ActionsMade(g, st, la, start, ap) && nconflict == Marks(ap)
    ensures ActionsOK(g, st, la, start, ap) && |ap| <= |st.ap| + |st.cfp| * g.nterminal + 1
  {
    var raw := RawActions(g, st, la, start);
    forall a, b | a in raw && b in raw && a.kind.SHIFT? && b.kind.SHIFT? && a.sp == b.sp ensures a == b {
      assert a in st.ap && b in st.ap;
    }
    var sorted := ActionSort(g, raw);
    assert forall k | 0 <= k < |sorted| :: sorted[k] in sorted;
    ap, nconflict := ResolveConflicts(g, sorted);
    assert IsSortedRaw(g, st, la, start, sorted);
    ResolvedIsOK(g, st, la, start, sorted, ap);
  }
}
