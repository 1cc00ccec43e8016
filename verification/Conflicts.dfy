/**
 `resolve_conflict` and the pairwise loop of `FindActions` that applies it to the
 sorted action list of a state.  For every lookahead exactly one SHIFT or REDUCE
 survives; it is the one with the highest precedence when precedence decides; and an
 ERROR action is left behind exactly when a nonassociative tie is met.
 */
module Conflicts {
  import opened Options
  import opened Grammars
  import opened Actions

  /** An action that still takes part in conflicts. */
  predicate Live(a: Action)
  {
    a.kind.SHIFT? || a.kind.REDUCE?
  }

  /** The precedence of a symbol, -1 if it is not defined. */
  function PrecOf(g: Grammar, sp: Option<nat>): int
  {
    if sp.Some? && sp.value < |g.prec| then g.prec[sp.value] else -1
  }

  /** The precedence that an action brings into a conflict: its lookahead for a shift, its rule for a reduction. */
  function ActionPrec(g: Grammar, a: Action): int
  {
    match a.kind
    case SHIFT(_) => PrecOf(g, Some(a.sp))
    case REDUCE(r) => if r < |g.rules| then PrecOf(g, g.rules[r].precsym) else -1
    case _ => -1
  }

  function AssocOf(g: Grammar, sp: nat): Assoc
  {
    if sp < |g.assoc| then g.assoc[sp] else UNK
  }

  /** Resolve a conflict between two actions on the same lookahead; also count it if it cannot be resolved. */
  function ResolvePair(g: Grammar, x: Action, y: Action): (Action, Action, nat)
  {
    var px, py := ActionPrec(g, x), ActionPrec(g, y);
    if x.kind.SHIFT? && y.kind.SHIFT? then (x, y.(kind := SSCONFLICT), 1)
    else if x.kind.SHIFT? && y.kind.REDUCE? then
      if px < 0 || py < 0 then (x, y.(kind := SRCONFLICT), 1)
      else if px > py then (x, y.(kind := RD_RESOLVED), 0)
      else if px < py then (x.(kind := SH_RESOLVED), y, 0)
      else if AssocOf(g, x.sp) == RIGHT then (x, y.(kind := RD_RESOLVED), 0)
      else if AssocOf(g, x.sp) == LEFT then (x.(kind := SH_RESOLVED), y, 0)
      else (x.(kind := Kind.ERROR), y, 0)
    else if x.kind.REDUCE? && y.kind.REDUCE? then
      if px < 0 || py < 0 || px == py then (x, y.(kind := RRCONFLICT), 1)
      else if px > py then (x, y.(kind := RD_RESOLVED), 0)
      else (x.(kind := RD_RESOLVED), y, 0)
    else (x, y, 0)
  }

  /** Of two live actions exactly one survives, and it is not the one with the lower defined precedence. */
  lemma OneSurvives(g: Grammar, x: Action, y: Action)
    requires Live(x) && Live(y) && !y.kind.SHIFT? && x.sp == y.sp
    ensures var (x', y', _) := ResolvePair(g, x, y);
            && (x' == x || y' == y) && x'.sp == x.sp && y'.sp == y.sp
            && (Live(x') <==> !Live(y'))
            && (0 <= ActionPrec(g, y) < ActionPrec(g, x) ==> x' == x)
            && (0 <= ActionPrec(g, x) < ActionPrec(g, y) ==> y' == y)
            && (x'.kind == Kind.ERROR <==> x.kind.SHIFT? && 0 <= ActionPrec(g, x) == ActionPrec(g, y) && AssocOf(g, x.sp) !in {LEFT, RIGHT})
            && y'.kind != Kind.ERROR
  {
  }

  /** The list is in `actioncmp` order as far as conflicts care: grouped by lookahead, a shift first in its group. */
  ghost predicate Grouped(ap: seq<Action>)
  {
    && (forall i, j | 0 <= i < j < |ap| :: ap[i].sp <= ap[j].sp)
    && (forall i, j | 0 <= i < j < |ap| && ap[i].sp == ap[j].sp :: !ap[j].kind.SHIFT?)
  }

  /** The kinds that a live action can be demoted to. */
  predicate Demotion(k: Kind)
  {
    k.ERROR? || k.SSCONFLICT? || k.SRCONFLICT? || k.RRCONFLICT? || k.SH_RESOLVED? || k.RD_RESOLVED?
  }

  /** `b` is `a` with some live actions demoted. */
  ghost predicate Demoted(a: seq<Action>, b: seq<Action>)
  {
    && |a| == |b|
    && forall k | 0 <= k < |a| :: b[k] == a[k] || (Live(a[k]) && Demotion(b[k].kind) && a[k].sp == b[k].sp)
  }

  /** Action `k` has a defined precedence that is above that of every other live action on its lookahead, all defined. */
  ghost predicate Dominates(g: Grammar, ap: seq<Action>, k: nat)
  {
    && k < |ap| && Live(ap[k])
    && forall l | 0 <= l < |ap| && l != k && ap[l].sp == ap[k].sp && Live(ap[l]) :: 0 <= ActionPrec(g, ap[l]) < ActionPrec(g, ap[k])
  }

  /** The shift at `i` meets the reduction at `j` with equal precedence and no associativity, and no earlier reduction beat it. */
  ghost predicate TieAt(g: Grammar, ap: seq<Action>, i: nat, j: nat)
  {
    && i < j < |ap| && ap[i].sp == ap[j].sp && ap[i].kind.SHIFT? && ap[j].kind.REDUCE?
    && 0 <= ActionPrec(g, ap[i]) == ActionPrec(g, ap[j]) && AssocOf(g, ap[i].sp) !in {LEFT, RIGHT}
    && forall l | i < l < j && ap[l].kind.REDUCE? :: !Beats(g, ap[i], ap[l])
  }

  ghost predicate HasTie(g: Grammar, ap: seq<Action>, i: nat)
  {
    exists j: nat :: TieAt(g, ap, i, j)
  }

  /** The reduction `y` takes the shift `x` out of the game. */
  predicate Beats(g: Grammar, x: Action, y: Action)
  {
    var px, py := ActionPrec(g, x), ActionPrec(g, y);
    px >= 0 && py >= 0 && (px < py || (px == py && AssocOf(g, x.sp) != RIGHT))
  }

  // ---------------------------------------------------------------------------
  // One row of the pairwise loop
  // ---------------------------------------------------------------------------

  /** Action `i` has met all of its group before `j`: if it is still live, they are not. */
  ghost predicate Met(ap: seq<Action>, i: nat, j: nat)
  {
    i < |ap| && forall l | i < l < j && l < |ap| && ap[l].sp == ap[i].sp && Live(ap[l]) :: !Live(ap[i])
  }

  ghost predicate Survivors(a: seq<Action>, b: seq<Action>)
  {
    |a| == |b| && forall k {:trigger HasSurvivor(b, a[k].sp)} | 0 <= k < |a| && Live(a[k]) :: HasSurvivor(b, a[k].sp)
  }

  ghost predicate HasSurvivor(b: seq<Action>, sp: nat)
  {
    exists l :: 0 <= l < |b| && b[l].sp == sp && Live(b[l])
  }

  ghost predicate DominantLives(g: Grammar, a: seq<Action>, b: seq<Action>)
  {
    |a| == |b| && forall k: nat {:trigger Dominates(g, a, k)} | k < |a| && Dominates(g, a, k) :: b[k] == a[k]
  }

  /** Of two live actions on a lookahead one stays. */
  lemma SurvivorsStep(a: seq<Action>, b: seq<Action>, i: nat, j: nat, x: Action, y: Action)
    requires Survivors(a, b) && i < j < |b| && b[i].sp == b[j].sp == x.sp == y.sp && (Live(x) || Live(y))
    ensures Survivors(a, b[i := x][j := y])
  {
    var b' := b[i := x][j := y];
    forall k | 0 <= k < |a| && Live(a[k]) ensures HasSurvivor(b', a[k].sp) {
      assert HasSurvivor(b, a[k].sp);
      var l :| 0 <= l < |b| && b[l].sp == a[k].sp && Live(b[l]);
      var l' := if l == i && !Live(x) then j else if l == j && !Live(y) then i else l;
      assert b'[l'].sp == a[k].sp && Live(b'[l']);
    }
  }

  /** A dominant action does not lose. */
  lemma DominantStep(g: Grammar, a: seq<Action>, b: seq<Action>, i: nat, j: nat)
    requires Grouped(a) && Demoted(a, b) && DominantLives(g, a, b) && i < j < |b| && b[i].sp == b[j].sp && Live(b[i]) && Live(b[j])
    ensures var p := ResolvePair(g, b[i], b[j]); DominantLives(g, a, b[i := p.0][j := p.1])
  {
    OneSurvives(g, b[i], b[j]);
    assert b[i] == a[i] && b[j] == a[j];
    var p := ResolvePair(g, b[i], b[j]);
    var b' := b[i := p.0][j := p.1];
    forall k: nat | k < |a| && Dominates(g, a, k) ensures b'[k] == a[k] {
      assert b[k] == a[k];
    }
  }

  /** What one pair does to the list. */
  ghost predicate PairDone(a: seq<Action>, b: seq<Action>, b': seq<Action>, i: nat, j: nat)
  {
    && |a| == |b| == |b'| && i < j < |b| && (Met(b, i, j) ==> Met(b', i, j + 1))
    && (forall k | 0 <= k < |b| && k != i && k != j :: b'[k] == b[k])
    && b'[i].sp == b[i].sp && b'[j].sp == b[j].sp && (Live(b'[i]) ==> Live(b[i])) && (Live(b'[j]) ==> Live(b[j]))
  }

  /** Resolving one pair of live actions keeps everything the loop promises. */
  lemma PairStep(g: Grammar, a: seq<Action>, b: seq<Action>, i: nat, j: nat)
    requires Grouped(a) && Demoted(a, b) && Survivors(a, b) && DominantLives(g, a, b)
    requires i < j < |b| && b[i].sp == b[j].sp
    ensures var p := ResolvePair(g, b[i], b[j]);
            var b' := b[i := p.0][j := p.1];
            Demoted(a, b') && Survivors(a, b') && DominantLives(g, a, b') && PairDone(a, b, b', i, j)
  {
    var p := ResolvePair(g, b[i], b[j]);
    var b' := b[i := p.0][j := p.1];
    if Live(b[i]) && Live(b[j]) {
      OneSurvives(g, b[i], b[j]);
      SurvivorsStep(a, b, i, j, p.0, p.1);
      DominantStep(g, a, b, i, j);
      DemotedStep(a, b, i, j, p.0, p.1);
    } else {
      assert p.0 == b[i] && p.1 == b[j];
      assert b' == b;
    }
  }

  lemma DemotedStep(a: seq<Action>, b: seq<Action>, i: nat, j: nat, x: Action, y: Action)
    requires Demoted(a, b) && i < j < |b| && b[i].sp == b[j].sp == x.sp == y.sp && Live(b[i]) && Live(b[j]) && (Live(x) <==> !Live(y))
    requires (x == b[i] || Demotion(x.kind)) && (y == b[j] || Demotion(y.kind))
    ensures Demoted(a, b[i := x][j := y]) && PairDone(a, b, b[i := x][j := y], i, j)
  {
  }

  // ---------------------------------------------------------------------------
  // Nonassociative ties
  // ---------------------------------------------------------------------------

  /** The shift at `i` has been turned into ERROR exactly if it has met a tie before `j`, and is live exactly if nothing beat it. */
  ghost predicate ShiftFate(g: Grammar, a: seq<Action>, x: Action, i: nat, j: nat)
    requires i < |a|
  {
    && (x.kind == Kind.ERROR <==> exists l: nat :: l < j && TieAt(g, a, i, l))
    && (Live(x) <==> forall l | i < l < j && l < |a| && a[l].sp == a[i].sp && a[l].kind.REDUCE? :: !Beats(g, a[i], a[l]))
    && (Live(x) ==> x == a[i])
  }

  lemma ShiftFateStep(g: Grammar, a: seq<Action>, x: Action, i: nat, j: nat)
    requires Grouped(a) && i < j < |a| && a[i].sp == a[j].sp && a[i].kind.SHIFT? && a[j].kind != Kind.ERROR
    requires ShiftFate(g, a, x, i, j)
    ensures ShiftFate(g, a, ResolvePair(g, x, a[j]).0, i, j + 1)
  {
    var x' := ResolvePair(g, x, a[j]).0;
    assert forall l | i < l < j && a[l].kind.REDUCE? :: a[l].sp == a[i].sp;
    if Live(x) {
      assert forall l: nat | l < j :: !TieAt(g, a, i, l);
      if a[j].kind.REDUCE? {
        OneSurvives(g, x, a[j]);
        assert x'.kind == Kind.ERROR <==> TieAt(g, a, i, j);
        assert Live(x') <==> !Beats(g, a[i], a[j]);
      } else {
        assert x' == x && !TieAt(g, a, i, j);
      }
    } else {
      assert x' == x;
      var l :| i < l < j && l < |a| && a[l].sp == a[i].sp && a[l].kind.REDUCE? && Beats(g, a[i], a[l]);
      assert !TieAt(g, a, i, j);
    }
  }

  ghost predicate Plain(a: seq<Action>)
  {
    forall k | 0 <= k < |a| :: a[k].kind.SHIFT? || a[k].kind.REDUCE? || a[k].kind.ACCEPT?
  }

  /** Groups that have not been reached yet are as they were. */
  ghost predicate Untouched(a: seq<Action>, b: seq<Action>, i: nat)
  {
    |a| == |b| && forall k | i <= k < |a| && (i == 0 || a[i - 1].sp != a[k].sp) :: b[k] == a[k]
  }

  /** ERROR is at a position before `i` exactly if the shift there met a tie, and nowhere else. */
  ghost predicate TiesMarked(g: Grammar, a: seq<Action>, b: seq<Action>, i: nat)
  {
    |a| == |b| && forall k: nat {:trigger HasTie(g, a, k)} | k < |a| :: b[k].kind == Kind.ERROR <==> k < i && HasTie(g, a, k)
  }

  ghost predicate RowInv(g: Grammar, a: seq<Action>, b: seq<Action>)
  {
    Grouped(a) && Plain(a) && Demoted(a, b) && Survivors(a, b) && DominantLives(g, a, b)
  }

  /** No two actions among the first `i` and later ones are both live on one lookahead. */
  ghost predicate Settled(b: seq<Action>, i: nat)
  {
    forall k: nat, l: nat | k < i && k < l < |b| && b[k].sp == b[l].sp && Live(b[l]) :: !Live(b[k])
  }

  /** What holds before row `i` of the pairwise loop. */
  ghost predicate RowsDone(g: Grammar, a: seq<Action>, b: seq<Action>, i: nat)
  {
    RowInv(g, a, b) && Untouched(a, b, i) && TiesMarked(g, a, b, i) && Settled(b, i)
  }

  /** What holds inside row `i`, before action `i` meets action `j`; `b0` is the list at the start of the row. */
  ghost predicate InRow(g: Grammar, a: seq<Action>, b0: seq<Action>, b: seq<Action>, i: nat, j: nat)
  {
    && i < j <= |a| == |b| == |b0|
    && RowInv(g, a, b) && Met(b, i, j) && Settled(b, i)
    && (forall k | 0 <= k < |b| && (k < i || k >= j) :: b[k] == b0[k])
    && (forall k | i < k < j :: b[k].kind != Kind.ERROR && a[k].sp == a[i].sp)
    && (if a[i].kind.SHIFT? then ShiftFate(g, a, b[i], i, j) else b[i].kind != Kind.ERROR)
  }

  lemma RowStart(g: Grammar, a: seq<Action>, b: seq<Action>, i: nat)
    requires RowsDone(g, a, b, i) && i < |a|
    ensures InRow(g, a, b, b, i, i + 1)
  {
    assert HasTie(g, a, i) || b[i].kind != Kind.ERROR;
    if a[i].kind.SHIFT? {
      assert i == 0 || a[i - 1].sp != a[i].sp;
      assert b[i] == a[i];
    }
  }

  lemma SettledStep(b: seq<Action>, b': seq<Action>, i: nat, j: nat)
    requires Settled(b, i) && i < j < |b| == |b'| && (forall k | 0 <= k < |b| && k != i && k != j :: b'[k] == b[k])
    requires b'[i].sp == b[i].sp && b'[j].sp == b[j].sp && (Live(b'[i]) ==> Live(b[i])) && (Live(b'[j]) ==> Live(b[j]))
    ensures Settled(b', i)
  {
  }

  lemma NoNewErrors(g: Grammar, x: Action, y: Action)
    ensures y.kind != Kind.ERROR ==> ResolvePair(g, x, y).1.kind != Kind.ERROR
    ensures !x.kind.SHIFT? && x.kind != Kind.ERROR ==> ResolvePair(g, x, y).0.kind != Kind.ERROR
  {
  }

  lemma RowFate(g: Grammar, a: seq<Action>, b0: seq<Action>, b: seq<Action>, i: nat, j: nat)
    requires RowsDone(g, a, b0, i) && InRow(g, a, b0, b, i, j) && j < |b| && b[j].sp == b[i].sp
    ensures var (x, y, _) := ResolvePair(g, b[i], b[j]);
            && y.kind != Kind.ERROR && a[j].sp == a[i].sp
            && if a[i].kind.SHIFT? then ShiftFate(g, a, x, i, j + 1) else x.kind != Kind.ERROR
  {
    NoNewErrors(g, b[i], b[j]);
    assert HasTie(g, a, j) || b0[j].kind != Kind.ERROR;
    assert b[j] == b0[j] && b0[j].kind != Kind.ERROR;
    if a[i].kind.SHIFT? {
      assert i == 0 || a[i - 1].sp != a[j].sp;
      assert b[j] == a[j];
      ShiftFateStep(g, a, b[i], i, j);
    }
  }

  lemma RowStep(g: Grammar, a: seq<Action>, b0: seq<Action>, b: seq<Action>, i: nat, j: nat)
    requires RowsDone(g, a, b0, i) && InRow(g, a, b0, b, i, j) && j < |b| && b[j].sp == b[i].sp
    ensures var p := ResolvePair(g, b[i], b[j]); InRow(g, a, b0, b[i := p.0][j := p.1], i, j + 1)
  {
    var p := ResolvePair(g, b[i], b[j]);
    PairStep(g, a, b, i, j);
    SettledStep(b, b[i := p.0][j := p.1], i, j);
    RowFate(g, a, b0, b, i, j);
    RowGoesOn(g, a, b0, b, b[i := p.0][j := p.1], i, j);
  }

  lemma RowGoesOn(g: Grammar, a: seq<Action>, b0: seq<Action>, b: seq<Action>, b': seq<Action>, i: nat, j: nat)
    requires InRow(g, a, b0, b, i, j) && j < |b| && RowInv(g, a, b') && PairDone(a, b, b', i, j) && Settled(b', i)
    requires b'[j].kind != Kind.ERROR && a[j].sp == a[i].sp && if a[i].kind.SHIFT? then ShiftFate(g, a, b'[i], i, j + 1) else b'[i].kind != Kind.ERROR
    ensures InRow(g, a, b0, b', i, j + 1)
  {
  }

  lemma RowEndTies(g: Grammar, a: seq<Action>, b0: seq<Action>, b: seq<Action>, i: nat, j: nat)
    requires RowsDone(g, a, b0, i) && InRow(g, a, b0, b, i, j) && forall k | j <= k < |a| :: a[i].sp < a[k].sp
    ensures TiesMarked(g, a, b, i + 1)
  {
    forall k: nat | k < |a| ensures b[k].kind == Kind.ERROR <==> k < i + 1 && HasTie(g, a, k) {
      if k == i && a[i].kind.SHIFT? {
        assert forall l: nat | TieAt(g, a, i, l) :: l < j;
      }
    }
  }

  lemma RowEndRest(g: Grammar, a: seq<Action>, b0: seq<Action>, b: seq<Action>, i: nat, j: nat)
    requires RowsDone(g, a, b0, i) && InRow(g, a, b0, b, i, j)
    ensures Untouched(a, b, i + 1)
  {
    forall k | i + 1 <= k < |a| && a[i].sp != a[k].sp ensures b[k] == a[k] {
      assert i == 0 || a[i - 1].sp <= a[i].sp;
    }
  }

  lemma RowEndSettled(a: seq<Action>, b: seq<Action>, i: nat, j: nat)
    requires i < j <= |a| == |b| && Met(b, i, j) && Settled(b, i)
    requires (forall k | 0 <= k < |a| :: b[k].sp == a[k].sp) && forall k | j <= k < |a| :: a[i].sp < a[k].sp
    ensures Settled(b, i + 1)
  {
  }

  lemma RowEnd(g: Grammar, a: seq<Action>, b0: seq<Action>, b: seq<Action>, i: nat, j: nat)
    requires RowsDone(g, a, b0, i) && InRow(g, a, b0, b, i, j) && (j == |b| || b[j].sp != b[i].sp)
    ensures RowsDone(g, a, b, i + 1)
  {
    assert forall k | 0 <= k < |a| :: b[k].sp == a[k].sp;
    forall k | j <= k < |a| ensures a[i].sp < a[k].sp { assert a[i].sp <= a[j].sp <= a[k].sp; }
    RowEndTies(g, a, b0, b, i, j);
    RowEndRest(g, a, b0, b, i, j);
    RowEndSettled(a, b, i, j);
  }

  /** The list after the inner loop: action `i` meets every later action of its group, from `j` on. */
  function Meet(g: Grammar, ap: seq<Action>, i: nat, j: nat): (r: seq<Action>)
    requires i < j <= |ap|
    ensures |r| == |ap|
    decreases |ap| - j
  {
    if j < |ap| && ap[j].sp == ap[i].sp then
      var p := ResolvePair(g, ap[i], ap[j]);
      Meet(g, ap[i := p.0][j := p.1], i, j + 1)
    else ap
  }

  lemma {:induction false} MeetEndsRow(g: Grammar, a: seq<Action>, b0: seq<Action>, b: seq<Action>, i: nat, j: nat)
    requires RowsDone(g, a, b0, i) && InRow(g, a, b0, b, i, j)
    ensures RowsDone(g, a, Meet(g, b, i, j), i + 1)
    decreases |b| - j
  {
    if j < |b| && b[j].sp == b[i].sp {
      var p := ResolvePair(g, b[i], b[j]);
      RowStep(g, a, b0, b, i, j);
      MeetEndsRow(g, a, b0, b[i := p.0][j := p.1], i, j + 1);
    } else {
      RowEnd(g, a, b0, b, i, j);
    }
  }

  /** The action has lost without a precedence that decides. */
  predicate IsConflict(a: Action)
  {
    a.kind.SSCONFLICT? || a.kind.SRCONFLICT? || a.kind.RRCONFLICT?
  }

  /** The number of conflicts that are marked in the list. */
  function Marks(ap: seq<Action>): nat
  {
    if ap == [] then 0 else Marks(ap[..|ap| - 1]) + if IsConflict(ap[|ap| - 1]) then 1 else 0
  }

  lemma {:induction false} MarksUpdate(ap: seq<Action>, k: nat, x: Action)
    requires k < |ap|
    ensures Marks(ap[k := x]) + (if IsConflict(ap[k]) then 1 else 0) == Marks(ap) + if IsConflict(x) then 1 else 0
    decreases |ap|
  {
    var last := |ap| - 1;
    if k == last {
      assert ap[k := x][..last] == ap[..last];
    } else {
      assert ap[k := x][..last] == ap[..last][k := x];
      MarksUpdate(ap[..last], k, x);
    }
  }

  /** A meeting is counted exactly if it leaves a mark. */
  lemma MeetingMarks(g: Grammar, ap: seq<Action>, i: nat, j: nat)
    requires i < j < |ap|
    ensures var p := ResolvePair(g, ap[i], ap[j]); Marks(ap[i := p.0][j := p.1]) == Marks(ap) + p.2
  {
    var p := ResolvePair(g, ap[i], ap[j]);
    MarksUpdate(ap, i, p.0);
    MarksUpdate(ap[i := p.0], j, p.1);
  }

  lemma {:induction false} PlainHasNoMarks(ap: seq<Action>)
    requires Plain(ap)
    ensures Marks(ap) == 0
  {
    if ap != [] { PlainHasNoMarks(ap[..|ap| - 1]); }
  }

  /** The inner loop: action `i` meets every later action of its group in turn. */
  method ResolveRow(g: Grammar, ap: seq<Action>, i: nat, ghost a: seq<Action>) returns (ap': seq<Action>, conflicts: nat)
    requires i < |ap| && RowsDone(g, a, ap, i)
    ensures ap' == Meet(g, ap, i, i + 1) && RowsDone(g, a, ap', i + 1) && Marks(ap') == Marks(ap) + conflicts
  {
    ap', conflicts := MeetAll(g, ap, i);
    RowStart(g, a, ap, i);
    MeetEndsRow(g, a, ap, ap, i, i + 1);
  }

  method MeetAll(g: Grammar, ap: seq<Action>, i: nat) returns (ap': seq<Action>, conflicts: nat)
    requires i < |ap|
    ensures ap' == Meet(g, ap, i, i + 1) && Marks(ap') == Marks(ap) + conflicts
  {
    ap', conflicts := ap, 0;
    var j := i + 1;
    while j < |ap'| && ap'[j].sp == ap'[i].sp
      invariant i < j <= |ap'| && Meet(g, ap', i, j) == Meet(g, ap, i, i + 1)
      invariant Marks(ap') == Marks(ap) + conflicts
    {
      MeetingMarks(g, ap', i, j);
      var p := ResolvePair(g, ap'[i], ap'[j]);
      ap', conflicts := ap'[i := p.0][j := p.1], conflicts + p.2;
      j := j + 1;
    }
  }

  /** The list after the outer loop, from row `i` on. */
  function ResolveFrom(g: Grammar, ap: seq<Action>, i: nat): (r: seq<Action>)
    requires i <= |ap|
    ensures |r| == |ap|
    decreases |ap| - i
  {
    if i == |ap| then ap else ResolveFrom(g, Meet(g, ap, i, i + 1), i + 1)
  }

  /** No lookahead has two live actions. */
  ghost predicate OneLive(ap: seq<Action>)
  {
    forall k, l | 0 <= k < l < |ap| && ap[k].sp == ap[l].sp && Live(ap[l]) :: !Live(ap[k])
  }

  ghost predicate DistinctLookaheads(a: seq<Action>)
  {
    forall k, l | 0 <= k < l < |a| :: a[k].sp != a[l].sp
  }

  lemma NoConflictNoChange(a: seq<Action>, b: seq<Action>)
    requires DistinctLookaheads(a) && Demoted(a, b) && Survivors(a, b)
    ensures b == a
  {
    forall k | 0 <= k < |a| ensures b[k] == a[k] {
      if Live(a[k]) {
        assert HasSurvivor(b, a[k].sp);
        var l :| 0 <= l < |b| && b[l].sp == a[k].sp && Live(b[l]);
        assert a[l].sp == a[k].sp;
      }
    }
  }

  /** What conflict resolution promises. */
  ghost predicate IsResolved(g: Grammar, a: seq<Action>, ap: seq<Action>)
  {
    && Demoted(a, ap) && Survivors(a, ap) && OneLive(ap) && DominantLives(g, a, ap)
    && (forall k: nat {:trigger HasTie(g, a, k)} | k < |ap| :: ap[k].kind == Kind.ERROR <==> HasTie(g, a, k))
    && (DistinctLookaheads(a) ==> ap == a)
  }

  /**
   Resolve all conflicts in the sorted action list of a state.  Every lookahead that
   had a SHIFT or REDUCE keeps exactly one, the dominant one if there is one, and an
   ERROR appears exactly where a shift meets a nonassociative tie.  The number of conflicts
   is that of the actions that have lost without a precedence that decides.
   */
  method ResolveConflicts(g: Grammar, a: seq<Action>) returns (ap: seq<Action>, nconflict: nat)
    requires Grouped(a) && Plain(a)
    ensures ap == ResolveFrom(g, a, 0) && IsResolved(g, a, ap) && nconflict == Marks(ap)
  {
    ap, nconflict := a, 0;
    RowsStart(g, a);
    PlainHasNoMarks(a);
    var i := 0;
    while i < |ap|
      invariant 0 <= i <= |ap| && ResolveFrom(g, ap, i) == ResolveFrom(g, a, 0)
      invariant RowsDone(g, a, ap, i) && nconflict == Marks(ap)
    {
      var n;
      ap, n := ResolveRow(g, ap, i, a);
      nconflict := nconflict + n;
      i := i + 1;
    }
    RowsEnd(g, a, ap);
  }

  lemma RowsStart(g: Grammar, a: seq<Action>)
    requires Grouped(a) && Plain(a)
    ensures RowsDone(g, a, a, 0)
  {
    forall k | 0 <= k < |a| && Live(a[k]) ensures HasSurvivor(a, a[k].sp) { }
  }

  lemma {:induction false} ResolvesRows(g: Grammar, a: seq<Action>, b: seq<Action>, i: nat)
    requires RowsDone(g, a, b, i) && i <= |b|
    ensures RowsDone(g, a, ResolveFrom(g, b, i), |b|)
    decreases |b| - i
  {
    if i < |b| {
      RowStart(g, a, b, i);
      MeetEndsRow(g, a, b, b, i, i + 1);
      ResolvesRows(g, a, Meet(g, b, i, i + 1), i + 1);
    }
  }

  /** The pairwise loop resolves the list. */
  lemma LoopResolves(g: Grammar, a: seq<Action>)
    requires Grouped(a) && Plain(a)
    ensures IsResolved(g, a, ResolveFrom(g, a, 0))
  {
    RowsStart(g, a);
    ResolvesRows(g, a, a, 0);
    RowsEnd(g, a, ResolveFrom(g, a, 0));
  }

  lemma RowsEnd(g: Grammar, a: seq<Action>, ap: seq<Action>)
    requires RowsDone(g, a, ap, |ap|)
    ensures IsResolved(g, a, ap)
  {
    if DistinctLookaheads(a) { NoConflictNoChange(a, ap); }
  }
}
