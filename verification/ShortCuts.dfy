/**
 The third pass of `CompressTables` over the action list of a state: a goto that shifts
 and reduces by a code-free unit rule becomes what the row has for the left-hand side.
 The pass visits an action again until it no longer qualifies.  It ends if and only if
 the unit rules of the row form no cycle.  Otherwise the first action that leads into a
 cycle decides: from inside the cycle the search for the other action fails, from
 outside it the visits go on for ever.
 */
module ShortCuts {
  import opened FiniteSets
  import opened Options
  import opened Grammars
  import opened Actions
  import opened Machine
  import opened Lalr
  import opened Compress

  // ---------------------------------------------------------------------------
  // Where short cuts lead
  // ---------------------------------------------------------------------------

  /** The shift-reduce `a` on `x` qualifies for the short cut. */
  predicate Cuts(g: Grammar, x: nat, a: Act)
  {
    a.ShiftReduce? && a.rule < |g.rules| && g.rules[a.rule].noCode && |g.rules[a.rule].rhs| == 1 && x >= g.nterminal
  }

  /** The row has a short cut on `x`. */
  predicate CutsAt(g: Grammar, row: map<nat, Act>, x: nat)
  {
    x in row && Cuts(g, x, row[x])
  }

  /** Where the short cut on `x` leads. */
  function Target(g: Grammar, row: map<nat, Act>, x: nat): nat
    requires CutsAt(g, row, x)
  {
    g.rules[row[x].rule].lhs
  }

  /** Every short cut leads to a goto of the row. */
  ghost predicate CutsStay(g: Grammar, row: map<nat, Act>)
  {
    forall x: nat | CutsAt(g, row, x) :: Target(g, row, x) in row && Target(g, row, x) >= g.nterminal
  }

  /** From `x`, the short cuts end after at most `n` of them. */
  predicate EndsIn(g: Grammar, row: map<nat, Act>, x: nat, n: nat)
    decreases n
  {
    CutsAt(g, row, x) ==> n > 0 && EndsIn(g, row, Target(g, row, x), n - 1)
  }

  /** From `x`, the short cuts end: a row has no longer way without a cycle. */
  predicate CutsEnd(g: Grammar, row: map<nat, Act>, x: nat)
  {
    EndsIn(g, row, x, |row|)
  }

  /** The short cuts of the row form no cycle. */
  predicate Acyclic(g: Grammar, row: map<nat, Act>)
  {
    forall x | x in row :: CutsEnd(g, row, x)
  }

  lemma {:induction false} EndsLater(g: Grammar, row: map<nat, Act>, x: nat, n: nat, m: nat)
    requires EndsIn(g, row, x, n) && n <= m
    ensures EndsIn(g, row, x, m)
    decreases n
  {
    if CutsAt(g, row, x) { EndsLater(g, row, Target(g, row, x), n - 1, m - 1); }
  }

  /** Among the symbols of `dom`, short cuts stay and go down in rank. */
  ghost predicate Falls(g: Grammar, row: map<nat, Act>, dom: set<nat>, rank: nat -> nat)
  {
    dom <= row.Keys && forall x | x in dom && CutsAt(g, row, x) :: Target(g, row, x) in dom && rank(Target(g, row, x)) < rank(x)
  }

  ghost function UpTo(dom: set<nat>, rank: nat -> nat, r: nat): set<nat>
  {
    set y | y in dom && rank(y) <= r
  }

  /** No more short cuts than symbols of the same rank or lower. */
  lemma {:induction false} FallingEnds(g: Grammar, row: map<nat, Act>, dom: set<nat>, rank: nat -> nat, x: nat)
    requires Falls(g, row, dom, rank) && x in dom
    ensures EndsIn(g, row, x, |UpTo(dom, rank, rank(x))|)
    decreases rank(x)
  {
    if CutsAt(g, row, x) {
      var y := Target(g, row, x);
      FallingEnds(g, row, dom, rank, y);
      var below, here := UpTo(dom, rank, rank(y)), UpTo(dom, rank, rank(x));
      assert x in here && x !in below && below <= here;
      SmallerSet(below, here);
      EndsLater(g, row, y, |below|, |here| - 1);
    }
  }

  lemma FallingEndsSoon(g: Grammar, row: map<nat, Act>, dom: set<nat>, rank: nat -> nat, x: nat)
    requires Falls(g, row, dom, rank) && x in dom
    ensures CutsEnd(g, row, x)
  {
    FallingEnds(g, row, dom, rank, x);
    var here := UpTo(dom, rank, rank(x));
    SmallerSet(here, row.Keys);
    EndsLater(g, row, x, |here|, |row|);
  }

  /** The number of short cuts from `x`. */
  function Length(g: Grammar, row: map<nat, Act>, x: nat, n: nat): (l: nat)
    requires EndsIn(g, row, x, n)
    ensures l <= n
    decreases n
  {
    if CutsAt(g, row, x) then 1 + Length(g, row, Target(g, row, x), n - 1) else 0
  }

  lemma {:induction false} LengthSame(g: Grammar, row: map<nat, Act>, x: nat, n: nat, m: nat)
    requires EndsIn(g, row, x, n) && EndsIn(g, row, x, m)
    ensures Length(g, row, x, n) == Length(g, row, x, m)
    decreases n
  {
    if CutsAt(g, row, x) { LengthSame(g, row, Target(g, row, x), n - 1, m - 1); }
  }

  /** What ends at all ends soon. */
  lemma EndsSoon(g: Grammar, row: map<nat, Act>, x: nat, n: nat)
    requires CutsStay(g, row) && EndsIn(g, row, x, n)
    ensures CutsEnd(g, row, x)
  {
    if x in row {
      var dom := set y | y in row && EndsIn(g, row, y, n);
      var rank := (y: nat) => if EndsIn(g, row, y, n) then Length(g, row, y, n) else 0;
      forall y | y in dom && CutsAt(g, row, y) ensures Target(g, row, y) in dom && rank(Target(g, row, y)) < rank(y) {
        EndsLater(g, row, Target(g, row, y), n - 1, n);
        LengthSame(g, row, Target(g, row, y), n - 1, n);
      }
      FallingEndsSoon(g, row, dom, rank, x);
    }
  }

  lemma EndsStep(g: Grammar, row: map<nat, Act>, x: nat)
    requires CutsStay(g, row) && CutsAt(g, row, x)
    ensures CutsEnd(g, row, x) <==> CutsEnd(g, row, Target(g, row, x))
    ensures CutsEnd(g, row, x) ==> LengthOf(g, row, x) == LengthOf(g, row, Target(g, row, x)) + 1
  {
    var y := Target(g, row, x);
    if CutsEnd(g, row, x) {
      EndsLater(g, row, y, |row| - 1, |row|);
      LengthSame(g, row, y, |row| - 1, |row|);
    }
    if CutsEnd(g, row, y) { EndsSoon(g, row, x, |row| + 1); }
  }

  function LengthOf(g: Grammar, row: map<nat, Act>, x: nat): (l: nat)
    requires CutsEnd(g, row, x)
    ensures l <= |row|
  {
    Length(g, row, x, |row|)
  }

  /** Every short cut leads to a goto of lower rank. */
  ghost predicate CutsOK(g: Grammar, row: map<nat, Act>, rank: nat -> nat)
  {
    CutsStay(g, row) && forall x: nat | CutsAt(g, row, x) :: rank(Target(g, row, x)) < rank(x)
  }

  /** How far `x` is from the end of its short cuts. */
  function RankIn(g: Grammar, row: map<nat, Act>, x: nat): nat
  {
    if CutsEnd(g, row, x) then LengthOf(g, row, x) else 0
  }

  lemma AcyclicRank(g: Grammar, row: map<nat, Act>)
    requires CutsStay(g, row) && Acyclic(g, row)
    ensures CutsOK(g, row, x => RankIn(g, row, x))
  {
    forall x: nat | CutsAt(g, row, x) ensures RankIn(g, row, Target(g, row, x)) < RankIn(g, row, x) { EndsStep(g, row, x); }
  }

  /** No cycle means that the symbols can be ranked so that every short cut goes down. */
  lemma AcyclicIsRanked(g: Grammar, row: map<nat, Act>)
    requires CutsStay(g, row)
    ensures Acyclic(g, row) <==> exists rank :: CutsOK(g, row, rank)
  {
    if Acyclic(g, row) { AcyclicRank(g, row); }
    if rank :| CutsOK(g, row, rank) {
      forall x | x in row ensures CutsEnd(g, row, x) { FallingEndsSoon(g, row, row.Keys, rank, x); }
    }
  }

  /** The action that the short cuts from `x` finally lead to. */
  function Final(g: Grammar, row: map<nat, Act>, x: nat): Act
    requires CutsStay(g, row) && x in row && CutsEnd(g, row, x)
    decreases LengthOf(g, row, x)
  {
    if CutsAt(g, row, x) then
      EndsStep(g, row, x);
      Final(g, row, Target(g, row, x))
    else row[x]
  }

  lemma {:induction false} FinalIsEnd(g: Grammar, row: map<nat, Act>, x: nat, y: nat)
    requires CutsStay(g, row) && x in row && CutsEnd(g, row, x) && x >= g.nterminal
    ensures !Cuts(g, y, Final(g, row, x))
    decreases LengthOf(g, row, x)
  {
    if CutsAt(g, row, x) {
      EndsStep(g, row, x);
      FinalIsEnd(g, row, Target(g, row, x), y);
    }
  }

  /** The row after pass three. */
  function Row3(g: Grammar, row: map<nat, Act>): map<nat, Act>
    requires CutsStay(g, row) && Acyclic(g, row)
  {
    map x | x in row :: Final(g, row, x)
  }

  // ---------------------------------------------------------------------------
  // Cycles
  // ---------------------------------------------------------------------------

  /** Where `v` short cuts lead from `x`. */
  function Hop(g: Grammar, row: map<nat, Act>, x: nat, v: nat): nat
    decreases v
  {
    if v == 0 || !CutsAt(g, row, x) then x else Hop(g, row, Target(g, row, x), v - 1)
  }

  /** The short cuts from `x` come back to it. */
  predicate OnCycle(g: Grammar, row: map<nat, Act>, x: nat)
  {
    CutsAt(g, row, x) && exists v | 0 < v <= |row| :: Hop(g, row, x, v) == x
  }

  lemma {:induction false} HopAdd(g: Grammar, row: map<nat, Act>, x: nat, u: nat, v: nat)
    ensures Hop(g, row, x, u + v) == Hop(g, row, Hop(g, row, x, u), v)
    decreases u
  {
    if u > 0 && CutsAt(g, row, x) { HopAdd(g, row, Target(g, row, x), u - 1, v); }
  }

  lemma {:induction false} HopStays(g: Grammar, row: map<nat, Act>, x: nat, v: nat)
    requires CutsStay(g, row) && x in row
    ensures Hop(g, row, x, v) in row
    decreases v
  {
    if v > 0 && CutsAt(g, row, x) { HopStays(g, row, Target(g, row, x), v - 1); }
  }

  /** What comes back at all comes back soon. */
  lemma {:induction false} ReturnsSoon(g: Grammar, row: map<nat, Act>, x: nat, v: nat)
    requires CutsStay(g, row) && CutsAt(g, row, x) && v > 0 && Hop(g, row, x, v) == x
    ensures OnCycle(g, row, x)
    decreases v
  {
    if v > |row| {
      var way := seq(v, u requires 0 <= u => Hop(g, row, x, u));
      forall u | 0 <= u < |way| ensures way[u] in row.Keys { HopStays(g, row, x, u); }
      var i, j := FindRepeat(way, row.Keys);
      HopAdd(g, row, x, i, v - j);
      HopAdd(g, row, x, j, v - j);
      ReturnsSoon(g, row, x, i + (v - j));
    }
  }

  /** What is on a cycle does not end. */
  lemma CycleNeverEnds(g: Grammar, row: map<nat, Act>, x: nat)
    requires CutsStay(g, row) && OnCycle(g, row, x)
    ensures !CutsEnd(g, row, x)
  {
    if CutsEnd(g, row, x) {
      var v :| 0 < v <= |row| && Hop(g, row, x, v) == x;
      EndsStep(g, row, x);
      HopShortens(g, row, Target(g, row, x), v - 1);
    }
  }

  /** What does not end goes on at every step. */
  lemma {:induction false} HopGoesOn(g: Grammar, row: map<nat, Act>, x: nat, v: nat)
    requires CutsStay(g, row) && !CutsEnd(g, row, x)
    ensures CutsAt(g, row, Hop(g, row, x, v)) && !CutsEnd(g, row, Hop(g, row, x, v)) && Target(g, row, Hop(g, row, x, v)) == Hop(g, row, x, v + 1)
    decreases v
  {
    EndsStep(g, row, x);
    if v > 0 {
      HopGoesOn(g, row, Target(g, row, x), v - 1);
    } else {
      assert Hop(g, row, x, 1) == Hop(g, row, Target(g, row, x), 0);
    }
  }

  /** What does not end leads into a cycle. */
  lemma LeadsToCycle(g: Grammar, row: map<nat, Act>, x: nat) returns (y: nat)
    requires CutsStay(g, row) && !CutsEnd(g, row, x)
    ensures OnCycle(g, row, y)
  {
    var way := seq(|row| + 1, u requires 0 <= u => Hop(g, row, x, u));
    forall u | 0 <= u < |way| ensures way[u] in row.Keys { HopStays(g, row, x, u); }
    var i, j := FindRepeat(way, row.Keys);
    y := Hop(g, row, x, i);
    HopAdd(g, row, x, i, j - i);
    HopGoesOn(g, row, x, i);
    ReturnsSoon(g, row, y, j - i);
  }

  lemma {:induction false} HopShortens(g: Grammar, row: map<nat, Act>, x: nat, v: nat)
    requires CutsStay(g, row) && CutsEnd(g, row, x)
    ensures CutsEnd(g, row, Hop(g, row, x, v)) && LengthOf(g, row, Hop(g, row, x, v)) <= LengthOf(g, row, x)
    decreases v
  {
    if v > 0 && CutsAt(g, row, x) {
      EndsStep(g, row, x);
      HopShortens(g, row, Target(g, row, x), v - 1);
    }
  }

  // ---------------------------------------------------------------------------
  // The pass
  // ---------------------------------------------------------------------------

  /** The first action on `lhs` other than action `k`, if there is one. */
  function FirstOther(ap: seq<Action>, k: nat, lhs: nat, from: nat): (o: Option<nat>)
    requires from <= |ap|
    ensures o.Some? ==> o.value < |ap| && o.value != k && ap[o.value].sp == lhs
    ensures o.None? ==> forall i | from <= i < |ap| && i != k :: ap[i].sp != lhs
    decreases |ap| - from
  {
    if from == |ap| then None else if from != k && ap[from].sp == lhs then Some(from) else FirstOther(ap, k, lhs, from + 1)
  }

  /** What one visit of an action does: keep it, replace its kind, or fail to find the other action. */
  datatype Visit = Keeps | Replaces(kind: Kind) | Fails

  function VisitAction(g: Grammar, ap: seq<Action>, k: nat): Visit
    requires k < |ap|
  {
    if ap[k].kind.SHIFTREDUCE? && Cuts(g, ap[k].sp, ShiftReduce(ap[k].kind.rp)) then
      match FirstOther(ap, k, g.rules[ap[k].kind.rp].lhs, 0)
      case None => Fails
      case Some(k2) => Replaces(ap[k2].kind)
    else Keeps
  }

  /** The pass stands at action `k`, or its assertion has failed. */
  datatype Pass = At(ap: seq<Action>, k: nat) | Broken
  {
    predicate Over() { At? && k >= |ap| }
  }

  /** One turn of the loop: an action that is replaced is visited again. */
  function Turn(g: Grammar, p: Pass): Pass
  {
    match p
    case Broken => p
    case At(ap, k) =>
      if k >= |ap| then p
      else
        match VisitAction(g, ap, k)
        case Keeps => At(ap, k + 1)
        case Replaces(kind) => At(ap[k := ap[k].(kind := kind)], k)
        case Fails => Broken
  }

  function Turns(g: Grammar, p: Pass, n: nat): Pass
    decreases n
  {
    if n == 0 then p else Turns(g, Turn(g, p), n - 1)
  }

  lemma {:induction false} TurnsAdd(g: Grammar, p: Pass, n: nat, m: nat)
    ensures Turns(g, p, n + m) == Turns(g, Turns(g, p, n), m)
    decreases n
  {
    if n > 0 { TurnsAdd(g, Turn(g, p), n - 1, m); }
  }

  lemma {:induction false} Rests(g: Grammar, p: Pass, n: nat)
    requires p.Broken? || p.Over()
    ensures Turns(g, p, n) == p
  {
    if n > 0 { Rests(g, p, n - 1); }
  }

  /** What holds of a list that the pass can work on. */
  ghost predicate CanCut(g: Grammar, ap: seq<Action>, row: map<nat, Act>)
  {
    Lists(ap, row) && GotosEmit(g, ap) && CutsStay(g, row)
  }

  /** Before action `k` all actions are what they finally become; after it they are as they were. */
  ghost predicate Resolved(g: Grammar, row: map<nat, Act>, ap: seq<Action>, ap1: seq<Action>, k: nat)
    requires CutsStay(g, row)
  {
    && |ap1| == |ap|
    && (forall l | 0 <= l < |ap| :: ap1[l].sp == ap[l].sp && (Emits(ap1[l]) <==> Emits(ap[l])))
    && (forall l | 0 <= l < k && l < |ap| && Emits(ap[l]) :: IsFinal(g, row, ap[l].sp, ActOf(ap1[l].kind).value))
    && (forall l | k < l < |ap| :: ap1[l] == ap[l])
  }

  ghost predicate IsFinal(g: Grammar, row: map<nat, Act>, x: nat, a: Act)
    requires CutsStay(g, row)
  {
    x in row && CutsEnd(g, row, x) && a == Final(g, row, x)
  }

  /** The short cuts from `x` have led to `y`, and `a` is its action, before or after the pass over it. */
  ghost predicate OnWay(g: Grammar, row: map<nat, Act>, x: nat, y: nat, a: Act)
    requires CutsStay(g, row)
  {
    && x in row && y in row && (a == row[y] || IsFinal(g, row, y, a))
    && (if x >= g.nterminal then y >= g.nterminal else y == x)
    && (CutsEnd(g, row, x) <==> CutsEnd(g, row, y))
    && (CutsEnd(g, row, x) ==> Final(g, row, y) == Final(g, row, x) && LengthOf(g, row, y) <= LengthOf(g, row, x))
  }

  /** The pass is at work on action `k`, and has come as far as `y`. */
  ghost predicate Working(g: Grammar, row: map<nat, Act>, ap: seq<Action>, ap1: seq<Action>, k: nat, y: nat)
    requires CutsStay(g, row)
  {
    && k < |ap| && Resolved(g, row, ap, ap1, k) && Emits(ap[k])
    && OnWay(g, row, ap[k].sp, y, ActOf(ap1[k].kind).value)
  }

  lemma CutIsFirst(g: Grammar, row: map<nat, Act>, x: nat, y: nat, a: Act)
    requires CutsStay(g, row) && OnWay(g, row, x, y, a)
    ensures Cuts(g, x, a) ==> a == row[y] && CutsAt(g, row, y)
    ensures !Cuts(g, x, a) ==> IsFinal(g, row, x, a)
  {
    if IsFinal(g, row, y, a) && y >= g.nterminal { FinalIsEnd(g, row, y, x); }
  }

  /** The next turn on action `k`, when it qualifies and the short cut does not lead back to it. */
  lemma CutTurn(g: Grammar, row: map<nat, Act>, ap: seq<Action>, ap1: seq<Action>, k: nat, y: nat) returns (ap2: seq<Action>)
    requires CanCut(g, ap, row) && Working(g, row, ap, ap1, k, y) && Cuts(g, ap[k].sp, ActOf(ap1[k].kind).value)
    ensures CutsAt(g, row, y)
    ensures Target(g, row, y) == ap[k].sp ==> Turn(g, At(ap1, k)) == Broken
    ensures Target(g, row, y) != ap[k].sp ==> Turn(g, At(ap1, k)) == At(ap2, k) && Working(g, row, ap, ap2, k, Target(g, row, y))
  {
    CutIsFirst(g, row, ap[k].sp, y, ActOf(ap1[k].kind).value);
    var lhs := Target(g, row, y);
    assert g.rules[ap1[k].kind.rp].lhs == lhs;
    ap2 := ap1;
    match FirstOther(ap1, k, lhs, 0) {
      case None =>
        if lhs != ap[k].sp { OtherIsThere(g, ap, row, ap1, k, lhs); }
      case Some(k2) =>
        assert ap[k2].sp == lhs && Emits(ap[k2]);
        ap2 := ap1[k := ap1[k].(kind := ap1[k2].kind)];
        EndsStep(g, row, y);
        OtherOnWay(g, row, ap, ap1, k, k2);
    }
  }

  lemma OtherIsThere(g: Grammar, ap: seq<Action>, row: map<nat, Act>, ap1: seq<Action>, k: nat, lhs: nat)
    requires CanCut(g, ap, row) && Resolved(g, row, ap, ap1, k) && k < |ap| && lhs in row && lhs != ap[k].sp
    ensures exists i :: 0 <= i < |ap1| && i != k && ap1[i].sp == lhs
  {
    assert HasAction(ap, lhs, row[lhs]);
    var i :| 0 <= i < |ap| && ap[i].sp == lhs && ActOf(ap[i].kind) == Some(row[lhs]);
    assert ap1[i].sp == lhs;
  }

  /** What another action holds is its own action, before or after the pass over it. */
  lemma OtherOnWay(g: Grammar, row: map<nat, Act>, ap: seq<Action>, ap1: seq<Action>, k: nat, k2: nat)
    requires CanCut(g, ap, row) && Resolved(g, row, ap, ap1, k) && k2 < |ap| && k2 != k && Emits(ap[k2])
    ensures ap[k2].sp in row && Emits(ap1[k2])
    ensures ActOf(ap1[k2].kind).value == row[ap[k2].sp] || IsFinal(g, row, ap[k2].sp, ActOf(ap1[k2].kind).value)
  {
  }

  /** The last turn on action `k`. */
  lemma LeaveTurn(g: Grammar, row: map<nat, Act>, ap: seq<Action>, ap1: seq<Action>, k: nat, y: nat)
    requires CanCut(g, ap, row) && Working(g, row, ap, ap1, k, y) && !Cuts(g, ap[k].sp, ActOf(ap1[k].kind).value)
    ensures Turn(g, At(ap1, k)) == At(ap1, k + 1) && CutsEnd(g, row, ap[k].sp) && Resolved(g, row, ap, ap1, k + 1)
  {
    CutIsFirst(g, row, ap[k].sp, y, ActOf(ap1[k].kind).value);
  }

  /** The pass leaves an action from which the short cuts end. */
  lemma {:induction false} Leaves(g: Grammar, row: map<nat, Act>, ap: seq<Action>, ap1: seq<Action>, k: nat, y: nat) returns (n: nat, ap2: seq<Action>)
    requires CanCut(g, ap, row) && Working(g, row, ap, ap1, k, y) && CutsEnd(g, row, ap[k].sp)
    ensures n <= LengthOf(g, row, y) + 1 && Turns(g, At(ap1, k), n) == At(ap2, k + 1) && Resolved(g, row, ap, ap2, k + 1)
    ensures k + 1 < |ap| ==> ap2[k + 1] == ap[k + 1]
    decreases LengthOf(g, row, y)
  {
    if Cuts(g, ap[k].sp, ActOf(ap1[k].kind).value) {
      ap2 := CutTurn(g, row, ap, ap1, k, y);
      EndsStep(g, row, y);
      n, ap2 := Leaves(g, row, ap, ap2, k, Target(g, row, y));
      n := n + 1;
    } else {
      LeaveTurn(g, row, ap, ap1, k, y);
      n, ap2 := 1, ap1;
      assert Turns(g, At(ap1, k), 1) == Turns(g, Turn(g, At(ap1, k)), 0);
    }
  }

  /** From an action on a cycle the search fails. */
  lemma {:induction false} Breaks(g: Grammar, row: map<nat, Act>, ap: seq<Action>, ap1: seq<Action>, k: nat, y: nat, v: nat) returns (n: nat)
    requires CanCut(g, ap, row) && Working(g, row, ap, ap1, k, y) && !CutsEnd(g, row, ap[k].sp) && v > 0 && Hop(g, row, y, v) == ap[k].sp
    ensures n <= v && Turns(g, At(ap1, k), n) == Broken
    decreases v
  {
    var ap2 := EndlessTurn(g, row, ap, ap1, k, y);
    var lhs := Target(g, row, y);
    assert Hop(g, row, y, v) == Hop(g, row, lhs, v - 1);
    if lhs == ap[k].sp {
      n := 0;
    } else {
      n := Breaks(g, row, ap, ap2, k, lhs, v - 1);
    }
    FirstTurn(g, At(ap1, k), n);
    n := n + 1;
  }

  lemma FirstTurn(g: Grammar, p: Pass, n: nat)
    ensures Turns(g, p, n + 1) == Turns(g, Turn(g, p), n)
  {
  }

  /** An action from which the short cuts do not end always qualifies. */
  lemma EndlessTurn(g: Grammar, row: map<nat, Act>, ap: seq<Action>, ap1: seq<Action>, k: nat, y: nat) returns (ap2: seq<Action>)
    requires CanCut(g, ap, row) && Working(g, row, ap, ap1, k, y) && !CutsEnd(g, row, ap[k].sp)
    ensures CutsAt(g, row, y)
    ensures Target(g, row, y) == ap[k].sp ==> Turn(g, At(ap1, k)) == Broken
    ensures Target(g, row, y) != ap[k].sp ==> Turn(g, At(ap1, k)) == At(ap2, k) && Working(g, row, ap, ap2, k, Target(g, row, y))
  {
    CutIsFirst(g, row, ap[k].sp, y, ActOf(ap1[k].kind).value);
    ap2 := CutTurn(g, row, ap, ap1, k, y);
  }

  /** From an action that leads into a cycle but is not on it, the visits never end. */
  lemma {:induction false} Remains(g: Grammar, row: map<nat, Act>, ap: seq<Action>, ap1: seq<Action>, k: nat, y: nat, n: nat)
    requires CanCut(g, ap, row) && Working(g, row, ap, ap1, k, y) && !CutsEnd(g, row, ap[k].sp)
    requires forall v: nat | v > 0 :: Hop(g, row, y, v) != ap[k].sp
    ensures Turns(g, At(ap1, k), n).At? && Turns(g, At(ap1, k), n).k == k && |Turns(g, At(ap1, k), n).ap| == |ap|
    decreases n
  {
    if n > 0 {
      var ap2 := EndlessTurn(g, row, ap, ap1, k, y);
      var lhs := Target(g, row, y);
      assert Hop(g, row, lhs, 0) == lhs && Hop(g, row, y, 1) == lhs;
      forall v: nat | v > 0 ensures Hop(g, row, lhs, v) != ap[k].sp { assert Hop(g, row, y, v + 1) == Hop(g, row, lhs, v); }
      Remains(g, row, ap, ap2, k, lhs, n - 1);
    }
  }

  /** From all actions before action `k` the short cuts end. */
  ghost predicate EndBefore(g: Grammar, row: map<nat, Act>, ap: seq<Action>, k: nat)
  {
    k <= |ap| && forall l | 0 <= l < k && Emits(ap[l]) :: CutsEnd(g, row, ap[l].sp)
  }

  /** The pass has come to action `k` in `n` turns. */
  ghost predicate Reached(g: Grammar, row: map<nat, Act>, ap: seq<Action>, k: nat, n: nat, ap1: seq<Action>)
    requires CutsStay(g, row)
  {
    Turns(g, At(ap, 0), n) == At(ap1, k) && Resolved(g, row, ap, ap1, k) && (k < |ap| ==> ap1[k] == ap[k])
  }

  lemma StartWork(g: Grammar, row: map<nat, Act>, ap: seq<Action>, ap1: seq<Action>, k: nat)
    requires CanCut(g, ap, row) && k < |ap| && Emits(ap[k]) && Resolved(g, row, ap, ap1, k) && ap1[k] == ap[k]
    ensures Working(g, row, ap, ap1, k, ap[k].sp)
  {
  }

  /** The pass comes to action `k`. */
  lemma {:induction false} PassReaches(g: Grammar, row: map<nat, Act>, ap: seq<Action>, k: nat) returns (n: nat, ap1: seq<Action>)
    requires CanCut(g, ap, row) && EndBefore(g, row, ap, k)
    ensures n <= k * (|row| + 1) && Reached(g, row, ap, k, n, ap1)
    decreases k
  {
    if k == 0 {
      n, ap1 := 0, ap;
    } else {
      var before;
      n, before := PassReaches(g, row, ap, k - 1);
      var m;
      m, ap1 := NextAction(g, row, ap, before, k - 1);
      TurnsAdd(g, At(ap, 0), n, m);
      MoreTurns(k - 1, |row|, n, m);
      n := n + m;
    }
  }

  lemma MoreTurns(k: nat, r: nat, n: nat, m: nat)
    requires n <= k * (r + 1) && m <= r + 1
    ensures n + m <= (k + 1) * (r + 1)
  {
  }

  lemma NextAction(g: Grammar, row: map<nat, Act>, ap: seq<Action>, ap1: seq<Action>, k: nat) returns (m: nat, ap2: seq<Action>)
    requires CanCut(g, ap, row) && k < |ap| && Resolved(g, row, ap, ap1, k) && ap1[k] == ap[k] && (Emits(ap[k]) ==> CutsEnd(g, row, ap[k].sp))
    ensures m <= |row| + 1 && Turns(g, At(ap1, k), m) == At(ap2, k + 1) && Resolved(g, row, ap, ap2, k + 1)
    ensures k + 1 < |ap| ==> ap2[k + 1] == ap[k + 1]
  {
    if Emits(ap[k]) {
      StartWork(g, row, ap, ap1, k);
      m, ap2 := Leaves(g, row, ap, ap1, k, ap[k].sp);
    } else {
      m, ap2 := 1, ap1;
      assert Turns(g, At(ap1, k), 1) == Turns(g, Turn(g, At(ap1, k)), 0);
    }
  }

  /** Action `k` is the first that leads into a cycle. */
  ghost predicate FirstEndless(g: Grammar, row: map<nat, Act>, ap: seq<Action>, k: nat)
  {
    k < |ap| && EndBefore(g, row, ap, k) && Emits(ap[k]) && !CutsEnd(g, row, ap[k].sp)
  }

  /** The first action that leads into a cycle decides how the pass fails. */
  lemma FirstEndlessDecides(g: Grammar, row: map<nat, Act>, ap: seq<Action>, k: nat)
    requires CanCut(g, ap, row) && FirstEndless(g, row, ap, k)
    ensures OnCycle(g, row, ap[k].sp) ==> exists n: nat :: n <= k * (|row| + 1) + |row| && Turns(g, At(ap, 0), n) == Broken
    ensures !OnCycle(g, row, ap[k].sp) ==> forall n: nat :: Turns(g, At(ap, 0), n).At? && !Turns(g, At(ap, 0), n).Over()
  {
    var n, ap1 := PassReaches(g, row, ap, k);
    StartWork(g, row, ap, ap1, k);
    var x := ap[k].sp;
    if OnCycle(g, row, x) {
      var v: nat :| 0 < v <= |row| && Hop(g, row, x, v) == x;
      var m := Breaks(g, row, ap, ap1, k, x, v);
      TurnsAdd(g, At(ap, 0), n, m);
      assert Turns(g, At(ap, 0), n + m) == Broken;
    } else {
      assert CutsAt(g, row, x);
      forall v: nat | v > 0 ensures Hop(g, row, x, v) != x {
        if Hop(g, row, x, v) == x { ReturnsSoon(g, row, x, v); }
      }
      forall q: nat ensures Turns(g, At(ap, 0), q).At? && !Turns(g, At(ap, 0), q).Over() {
        StillAt(g, row, ap, ap1, k, n, q);
      }
    }
  }

  lemma StillAt(g: Grammar, row: map<nat, Act>, ap: seq<Action>, ap1: seq<Action>, k: nat, n: nat, q: nat)
    requires CanCut(g, ap, row) && FirstEndless(g, row, ap, k) && Reached(g, row, ap, k, n, ap1)
    requires forall v: nat | v > 0 :: Hop(g, row, ap[k].sp, v) != ap[k].sp
    ensures Turns(g, At(ap, 0), q).At? && !Turns(g, At(ap, 0), q).Over()
  {
    StartWork(g, row, ap, ap1, k);
    if q >= n {
      Remains(g, row, ap, ap1, k, ap[k].sp, q - n);
      TurnsAdd(g, At(ap, 0), n, q - n);
    } else {
      TurnsAdd(g, At(ap, 0), q, n - q);
      var p := Turns(g, At(ap, 0), q);
      if p.Broken? || p.Over() { Rests(g, p, n - q); }
    }
  }

  lemma FindFirstEndless(g: Grammar, row: map<nat, Act>, ap: seq<Action>) returns (k: nat)
    requires CanCut(g, ap, row) && !Acyclic(g, row)
    ensures FirstEndless(g, row, ap, k)
  {
    var x :| x in row && !CutsEnd(g, row, x);
    assert HasAction(ap, x, row[x]);
    var i :| 0 <= i < |ap| && ap[i].sp == x && ActOf(ap[i].kind) == Some(row[x]);
    k := 0;
    while !(Emits(ap[k]) && !CutsEnd(g, row, ap[k].sp))
      invariant k <= i && EndBefore(g, row, ap, k)
      decreases i - k
    {
      k := k + 1;
    }
  }

  lemma RowIsSmall(ap: seq<Action>, row: map<nat, Act>)
    requires Lists(ap, row)
    ensures |row| <= |ap|
  {
    var keys := KeysOf(ap);
    forall x | x in row ensures x in keys { assert HasAction(ap, x, row[x]); }
    SmallerSet(row.Keys, keys);
  }

  lemma {:induction false} KeysOf(ap: seq<Action>) returns (keys: set<nat>)
    ensures |keys| <= |ap| && forall k | 0 <= k < |ap| :: ap[k].sp in keys
  {
    if ap == [] {
      keys := {};
    } else {
      keys := KeysOf(ap[..|ap| - 1]);
      keys := keys + {ap[|ap| - 1].sp};
    }
  }

  /** Without a cycle, the pass ends, and leaves the row that all short cuts lead to. */
  lemma PassEnds(g: Grammar, row: map<nat, Act>, ap: seq<Action>) returns (n: nat, ap': seq<Action>)
    requires CanCut(g, ap, row) && Acyclic(g, row)
    ensures n <= |ap| * (|row| + 1) && Turns(g, At(ap, 0), n) == At(ap', |ap|) && |ap'| == |ap| && Lists(ap', Row3(g, row))
  {
    n, ap' := PassReaches(g, row, ap, |ap|);
    forall x | x in row ensures HasAction(ap', x, Final(g, row, x)) {
      assert HasAction(ap, x, row[x]);
      var l :| 0 <= l < |ap| && ap[l].sp == x && ActOf(ap[l].kind) == Some(row[x]);
      assert Emits(ap[l]);
    }
  }

  /** The third pass over a state ends if and only if the unit rules of its row form no cycle. */
  lemma PassEndsExactly(g: Grammar, row: map<nat, Act>, ap: seq<Action>)
    requires CanCut(g, ap, row)
    ensures (exists n: nat :: Turns(g, At(ap, 0), n).Over()) <==> Acyclic(g, row)
    ensures Acyclic(g, row) <==> exists rank :: CutsOK(g, row, rank)
  {
    AcyclicIsRanked(g, row);
    if Acyclic(g, row) {
      var n, ap' := PassEnds(g, row, ap);
    } else {
      var k := FindFirstEndless(g, row, ap);
      FirstEndlessDecides(g, row, ap, k);
      if n: nat :| Turns(g, At(ap, 0), n).Over() {
        var m: nat :| Turns(g, At(ap, 0), m) == Broken;
        OneOutcome(g, At(ap, 0), n, m);
      }
    }
  }

  lemma OneOutcome(g: Grammar, p: Pass, n: nat, m: nat)
    requires Turns(g, p, n).Broken? || Turns(g, p, n).Over()
    requires Turns(g, p, m).Broken? || Turns(g, p, m).Over()
    ensures Turns(g, p, n) == Turns(g, p, m)
  {
    if n <= m {
      TurnsAdd(g, p, n, m - n);
      Rests(g, Turns(g, p, n), m - n);
    } else {
      TurnsAdd(g, p, m, n - m);
      Rests(g, Turns(g, p, m), n - m);
    }
  }

  /** How the pass over a state goes: it ends, its assertion fails, or it goes on for ever. */
  datatype Passage = Shortened(ap: seq<Action>) | Failed | Endless

  ghost predicate IsPassage(g: Grammar, ap: seq<Action>, out: Passage)
  {
    match out
    case Shortened(ap') => exists n: nat :: Turns(g, At(ap, 0), n) == At(ap', |ap|) && |ap'| == |ap|
    case Failed => exists n: nat :: Turns(g, At(ap, 0), n) == Broken
    case Endless => forall n: nat :: Turns(g, At(ap, 0), n).At? && !Turns(g, At(ap, 0), n).Over()
  }

  /** Pass three on one state, with as many visits as can be needed. */
  method ShortCutPass(g: Grammar, ap: seq<Action>, ghost row: map<nat, Act>) returns (out: Passage)
    requires CanCut(g, ap, row)
    ensures IsPassage(g, ap, out)
    ensures out.Shortened? <==> Acyclic(g, row)
    ensures out.Shortened? ==> |out.ap| == |ap| && Lists(out.ap, Row3(g, row))
  {
    var p := At(ap, 0);
    var n := 0;
    var most := (|ap| + 1) * (|ap| + 1);
    while n < most && p.At? && !p.Over()
      invariant n <= most && p == Turns(g, At(ap, 0), n)
    {
      TurnsAdd(g, At(ap, 0), n, 1);
      assert Turns(g, p, 1) == Turns(g, Turn(g, p), 0);
      p := Turn(g, p);
      n := n + 1;
    }
    out := if p.Broken? then Failed else if p.Over() then Shortened(p.ap) else Endless;
    TurnsEnough(g, row, ap, n, p, out);
  }

  lemma TurnsEnough(g: Grammar, row: map<nat, Act>, ap: seq<Action>, n: nat, p: Pass, out: Passage)
    requires CanCut(g, ap, row) && p == Turns(g, At(ap, 0), n) && (p.Broken? || p.Over() || n == (|ap| + 1) * (|ap| + 1))
    requires out == if p.Broken? then Failed else if p.Over() then Shortened(p.ap) else Endless
    ensures IsPassage(g, ap, out)
    ensures out.Shortened? <==> Acyclic(g, row)
    ensures out.Shortened? ==> |out.ap| == |ap| && Lists(out.ap, Row3(g, row))
  {
    RowIsSmall(ap, row);
    if Acyclic(g, row) {
      var m, ap' := PassEnds(g, row, ap);
      EnoughTurns(|ap|, |row|, |ap|);
      Settles(g, At(ap, 0), m, n);
    } else {
      var k := FindFirstEndless(g, row, ap);
      FirstEndlessDecides(g, row, ap, k);
      if OnCycle(g, row, ap[k].sp) {
        var m: nat :| m <= k * (|row| + 1) + |row| && Turns(g, At(ap, 0), m) == Broken;
        EnoughTurns(|ap|, |row|, k);
        Settles(g, At(ap, 0), m, n);
      }
    }
  }

  lemma EnoughTurns(a: nat, r: nat, k: nat)
    requires r <= a && k <= a
    ensures k * (r + 1) <= (a + 1) * (a + 1) && (k < a ==> k * (r + 1) + r <= (a + 1) * (a + 1))
  {
    assert k * (r + 1) <= a * (a + 1) by { assert k * (r + 1) <= a * (r + 1) && a * (r + 1) <= a * (a + 1); }
  }

  /** The state of the pass after `n` turns, when it has settled after `m`. */
  lemma Settles(g: Grammar, p: Pass, m: nat, n: nat)
    requires Turns(g, p, m).Broken? || Turns(g, p, m).Over()
    requires m <= n || Turns(g, p, n).Broken? || Turns(g, p, n).Over()
    ensures Turns(g, p, n) == Turns(g, p, m)
  {
    if m <= n {
      TurnsAdd(g, p, m, n - m);
      Rests(g, Turns(g, p, m), n - m);
    } else {
      OneOutcome(g, p, n, m);
    }
  }
}
