/**
 The assertions of `resolve_conflict`.  They hold throughout the resolution of a list if
 and only if every nonassociative tie is one of a `%nonassoc` operator, and the reduction
 that makes it is the last action on its lookahead: a further reduction meets the ERROR
 that the shift has become.
 */
module ConflictAssertions {
  import opened Grammars
  import opened Actions
  import opened Conflicts

  /** The action has been taken out of the game by an earlier meeting. */
  predicate IsOut(a: Action)
  {
    a.kind.SH_RESOLVED? || a.kind.RD_RESOLVED? || IsConflict(a)
  }

  /** What the meeting of two actions asserts. */
  predicate AssertionHolds(g: Grammar, x: Action, y: Action)
  {
    if x.kind.SHIFT? && y.kind.SHIFT? then true
    else if x.kind.SHIFT? && y.kind.REDUCE? then
      0 <= ActionPrec(g, x) == ActionPrec(g, y) && AssocOf(g, x.sp) !in {LEFT, RIGHT} ==> AssocOf(g, x.sp) == NONE
    else if x.kind.REDUCE? && y.kind.REDUCE? then true
    else IsOut(x) || IsOut(y)
  }

  /** The assertions hold while action `i` meets the later actions of its group, from `j` on. */
  predicate MeetHolds(g: Grammar, ap: seq<Action>, i: nat, j: nat)
    requires i < j <= |ap|
    decreases |ap| - j
  {
    j < |ap| && ap[j].sp == ap[i].sp ==>
      && AssertionHolds(g, ap[i], ap[j])
      && var p := ResolvePair(g, ap[i], ap[j]); MeetHolds(g, ap[i := p.0][j := p.1], i, j + 1)
  }

  /** The assertions hold from row `i` on. */
  predicate RowsHold(g: Grammar, ap: seq<Action>, i: nat)
    requires i <= |ap|
    decreases |ap| - i
  {
    i < |ap| ==> MeetHolds(g, ap, i, i + 1) && RowsHold(g, Meet(g, ap, i, i + 1), i + 1)
  }

  /** The accept action has its lookahead to itself. */
  ghost predicate AcceptAlone(a: seq<Action>)
  {
    forall i, j | 0 <= i < j < |a| && a[i].sp == a[j].sp :: !a[i].kind.ACCEPT? && !a[j].kind.ACCEPT?
  }

  /** What is still to come in row `i` from `j` on is no tie without `%nonassoc`, and nothing after a tie. */
  ghost predicate TieIsLast(g: Grammar, a: seq<Action>, i: nat, j: nat, l: nat)
    requires i < |a|
  {
    (l >= j ==> AssocOf(g, a[i].sp) == NONE) && forall q | l < q < |a| && q >= j :: a[q].sp != a[i].sp
  }

  ghost predicate TiesLast(g: Grammar, a: seq<Action>, i: nat, j: nat)
    requires i < |a|
  {
    forall l: nat | TieAt(g, a, i, l) :: TieIsLast(g, a, i, j, l)
  }

  lemma RestOfRow(g: Grammar, a: seq<Action>, b0: seq<Action>, b: seq<Action>, i: nat, j: nat)
    requires RowsDone(g, a, b0, i) && InRow(g, a, b0, b, i, j) && (j == |b| || b[j].sp != b[i].sp)
    ensures TiesLast(g, a, i, j)
  {
    assert b[i].sp == a[i].sp && (j < |b| ==> b[j].sp == a[j].sp);
    forall q | j <= q < |a| ensures a[i].sp < a[q].sp { assert a[i].sp <= a[j].sp <= a[q].sp; }
  }

  /** A shift that meets a reduction: how the assertion and the rest of the row go together. */
  lemma ShiftMeets(g: Grammar, a: seq<Action>, x: Action, i: nat, j: nat)
    requires Grouped(a) && i < j < |a| && a[i].sp == a[j].sp && a[i].kind.SHIFT? && a[j].kind.REDUCE?
    requires ShiftFate(g, a, x, i, j) && (x == a[i] || (Demotion(x.kind) && x.sp == a[i].sp))
    ensures TiesLast(g, a, i, j) <==> AssertionHolds(g, x, a[j]) && TiesLast(g, a, i, j + 1)
  {
    if x.kind == Kind.ERROR {
      var l: nat :| l < j && TieAt(g, a, i, l);
      assert !TieIsLast(g, a, i, j, l);
    } else {
      assert forall l: nat | l < j :: !TieAt(g, a, i, l);
      assert Live(x) ==> (TieAt(g, a, i, j) <==> 0 <= ActionPrec(g, x) == ActionPrec(g, a[j]) && AssocOf(g, x.sp) !in {LEFT, RIGHT});
      if Live(x) { LiveMeets(g, a, x, i, j); } else { BeatenMeets(g, a, i, j); }
    }
  }

  lemma LiveMeets(g: Grammar, a: seq<Action>, x: Action, i: nat, j: nat)
    requires Grouped(a) && i < j < |a| && a[i].sp == a[j].sp && a[j].kind.REDUCE? && a[i].kind.SHIFT? && x == a[i]
    requires (forall l: nat | l < j :: !TieAt(g, a, i, l))
    requires TieAt(g, a, i, j) <==> 0 <= ActionPrec(g, x) == ActionPrec(g, a[j]) && AssocOf(g, x.sp) !in {LEFT, RIGHT}
    ensures TiesLast(g, a, i, j) <==> AssertionHolds(g, x, a[j]) && TiesLast(g, a, i, j + 1)
  {
    if TiesLast(g, a, i, j) {
      forall l: nat | TieAt(g, a, i, l) ensures TieIsLast(g, a, i, j + 1, l) { assert TieIsLast(g, a, i, j, l); }
      if TieAt(g, a, i, j) { assert TieIsLast(g, a, i, j, j); }
    }
    if AssertionHolds(g, x, a[j]) && TiesLast(g, a, i, j + 1) {
      forall l: nat | TieAt(g, a, i, l) ensures TieIsLast(g, a, i, j, l) { assert TieIsLast(g, a, i, j + 1, l); }
    }
  }

  /** A shift that has been beaten meets no more ties. */
  lemma BeatenMeets(g: Grammar, a: seq<Action>, i: nat, j: nat)
    requires Grouped(a) && i < j < |a| && a[i].kind.SHIFT? && (forall l: nat | l < j :: !TieAt(g, a, i, l))
    requires exists l :: i < l < j && a[l].sp == a[i].sp && a[l].kind.REDUCE? && Beats(g, a[i], a[l])
    ensures TiesLast(g, a, i, j) && TiesLast(g, a, i, j + 1)
  {
    var l :| i < l < j && a[l].sp == a[i].sp && a[l].kind.REDUCE? && Beats(g, a[i], a[l]);
    assert forall q: nat | q >= j :: !TieAt(g, a, i, q);
  }

  lemma MeetingHolds(g: Grammar, a: seq<Action>, b0: seq<Action>, b: seq<Action>, i: nat, j: nat)
    requires RowsDone(g, a, b0, i) && InRow(g, a, b0, b, i, j) && j < |b| && b[j].sp == b[i].sp && AcceptAlone(a)
    ensures TiesLast(g, a, i, j) <==> AssertionHolds(g, b[i], b[j]) && TiesLast(g, a, i, j + 1)
  {
    assert b[i].sp == a[i].sp && b[j].sp == a[j].sp && b[j] == b0[j];
    assert !a[i].kind.ACCEPT? && a[j].kind.REDUCE?;
    if a[i].kind.SHIFT? {
      assert i == 0 || a[i - 1].sp != a[j].sp;
      assert b[j] == a[j];
      ShiftMeets(g, a, b[i], i, j);
    } else {
      assert HasTie(g, a, j) || b0[j].kind != Kind.ERROR;
      assert b[j].kind != Kind.ERROR && b[i].kind != Kind.ERROR;
      assert forall l: nat :: !TieAt(g, a, i, l);
    }
  }

  lemma {:induction false} RowHolds(g: Grammar, a: seq<Action>, b0: seq<Action>, b: seq<Action>, i: nat, j: nat)
    requires RowsDone(g, a, b0, i) && InRow(g, a, b0, b, i, j) && AcceptAlone(a)
    ensures MeetHolds(g, b, i, j) <==> TiesLast(g, a, i, j)
    decreases |b| - j
  {
    if j < |b| && b[j].sp == b[i].sp {
      var p := ResolvePair(g, b[i], b[j]);
      RowStep(g, a, b0, b, i, j);
      RowHolds(g, a, b0, b[i := p.0][j := p.1], i, j + 1);
      MeetingHolds(g, a, b0, b, i, j);
    } else {
      RestOfRow(g, a, b0, b, i, j);
    }
  }

  /** From row `i` on, every tie is `%nonassoc` and the last action on its lookahead. */
  ghost predicate TiesAreLast(g: Grammar, a: seq<Action>, i: nat)
  {
    forall k: nat, l: nat | k >= i && TieAt(g, a, k, l) :: AssocOf(g, a[k].sp) == NONE && forall q | l < q < |a| :: a[q].sp != a[k].sp
  }

  lemma {:induction false} RowsHoldExactly(g: Grammar, a: seq<Action>, b: seq<Action>, i: nat)
    requires RowsDone(g, a, b, i) && i <= |b| && AcceptAlone(a)
    ensures RowsHold(g, b, i) <==> TiesAreLast(g, a, i)
    decreases |b| - i
  {
    if i < |b| {
      RowStart(g, a, b, i);
      RowHolds(g, a, b, b, i, i + 1);
      MeetEndsRow(g, a, b, b, i, i + 1);
      RowsHoldExactly(g, a, Meet(g, b, i, i + 1), i + 1);
      OneRowMore(g, a, i);
    }
  }

  lemma OneRowMore(g: Grammar, a: seq<Action>, i: nat)
    requires i < |a|
    ensures TiesAreLast(g, a, i) <==> TiesLast(g, a, i, i + 1) && TiesAreLast(g, a, i + 1)
  {
    if TiesAreLast(g, a, i) {
      forall l: nat | TieAt(g, a, i, l) ensures TieIsLast(g, a, i, i + 1, l) { }
    }
    if TiesLast(g, a, i, i + 1) && TiesAreLast(g, a, i + 1) {
      forall l: nat | TieAt(g, a, i, l) ensures AssocOf(g, a[i].sp) == NONE && forall q | l < q < |a| :: a[q].sp != a[i].sp {
        assert TieIsLast(g, a, i, i + 1, l);
      }
    }
  }

  /** No assertion of `resolve_conflict` fails if and only if every tie is `%nonassoc` and the last action on its lookahead. */
  lemma AssertionsHoldExactly(g: Grammar, a: seq<Action>)
    requires Grouped(a) && Plain(a) && AcceptAlone(a)
    ensures RowsHold(g, a, 0) <==> TiesAreLast(g, a, 0)
  {
    RowsStart(g, a);
    RowsHoldExactly(g, a, a, 0);
  }
}
