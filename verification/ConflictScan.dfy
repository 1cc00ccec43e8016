/**
 Conflict resolution as a single scan.  The pairwise loop comes to the same as going once
 through the actions of a lookahead, in order: the first one leads until one comes that it
 yields to, which then leads.  Whatever comes while another leads is demoted.
 */
module ConflictScan {
  import opened Options
  import opened Grammars
  import opened Actions
  import opened Conflicts

  /** Both precedences are known and `y` has the higher one, or `x` is a shift on an operator that is not right-associative and they are equal. */
  predicate Yields(g: Grammar, x: Action, y: Action)
  {
    var px, py := ActionPrec(g, x), ActionPrec(g, y);
    0 <= px && 0 <= py && (px < py || (px == py && x.kind.SHIFT? && AssocOf(g, x.sp) != RIGHT))
  }

  /** Nothing decides between the two. */
  predicate Undecided(g: Grammar, x: Action, y: Action)
  {
    var px, py := ActionPrec(g, x), ActionPrec(g, y);
    px < 0 || py < 0 || (px == py && !x.kind.SHIFT?)
  }

  /** What becomes of `y` when it comes while `x` leads. */
  function Refused(g: Grammar, x: Action, y: Action): Action
  {
    y.(kind := if !Undecided(g, x, y) then RD_RESOLVED else if x.kind.SHIFT? then SRCONFLICT else RRCONFLICT)
  }

  /** What becomes of `x` when it yields to `y`. */
  function Replaced(g: Grammar, x: Action, y: Action): Action
  {
    x.(kind := if !x.kind.SHIFT? then RD_RESOLVED
               else if ActionPrec(g, x) < ActionPrec(g, y) || AssocOf(g, x.sp) == LEFT then SH_RESOLVED
               else Kind.ERROR)
  }

  /** Which of the first `n` actions leads on lookahead `sp`. */
  function Leader(g: Grammar, a: seq<Action>, n: nat, sp: nat): (c: Option<nat>)
    requires n <= |a|
    ensures c.Some? ==> c.value < n && a[c.value].sp == sp && Live(a[c.value])
  {
    if n == 0 then None
    else
      var c := Leader(g, a, n - 1, sp);
      if a[n - 1].sp == sp && Live(a[n - 1]) && (c.None? || Yields(g, a[c.value], a[n - 1])) then Some(n - 1) else c
  }

  predicate YieldsAt(g: Grammar, a: seq<Action>, k: nat, j: nat)
    requires k < |a| && j < |a|
  {
    a[j].sp == a[k].sp && Live(a[j]) && Yields(g, a[k], a[j])
  }

  /** The first action from `j` on that action `k` yields to. */
  function Successor(g: Grammar, a: seq<Action>, k: nat, j: nat): (d: nat)
    requires k < |a| && j <= |a|
    ensures j <= d <= |a| && (d < |a| ==> YieldsAt(g, a, k, d)) && forall i | j <= i < d :: !YieldsAt(g, a, k, i)
    decreases |a| - j
  {
    if j == |a| || YieldsAt(g, a, k, j) then j else Successor(g, a, k, j + 1)
  }

  /** What the scan makes of action `k`. */
  function Scanned(g: Grammar, a: seq<Action>, k: nat): Action
    requires k < |a|
  {
    var c := Leader(g, a, k, a[k].sp);
    if !Live(a[k]) then a[k]
    else if c.Some? && !Yields(g, a[c.value], a[k]) then Refused(g, a[c.value], a[k])
    else Outcome(g, a, k, |a|)
  }

  /** What has become of the leader `k` when it has met the actions before `j`. */
  function Outcome(g: Grammar, a: seq<Action>, k: nat, j: nat): Action
    requires k < |a| && j <= |a|
  {
    var d := Successor(g, a, k, k + 1);
    if d < j then Replaced(g, a[k], a[d]) else a[k]
  }

  // ---------------------------------------------------------------------------
  // The pairwise loop is the scan
  // ---------------------------------------------------------------------------

  /** Action `k` when the rows before `i` are done. */
  function Expected(g: Grammar, a: seq<Action>, i: nat, k: nat): Action
    requires i <= |a| && k < |a|
  {
    if k < i then Scanned(g, a, k)
    else
      var c := Leader(g, a, i, a[k].sp);
      if c.Some? && Live(a[k]) && k < Successor(g, a, c.value, c.value + 1) then Refused(g, a[c.value], a[k]) else a[k]
  }

  ghost predicate AsExpected(g: Grammar, a: seq<Action>, b: seq<Action>, i: nat)
  {
    i <= |a| == |b| && forall k | 0 <= k < |a| :: b[k] == Expected(g, a, i, k)
  }

  /** Action `i` leads when it is reached. */
  predicate Takes(g: Grammar, a: seq<Action>, i: nat)
    requires i < |a|
  {
    Leader(g, a, i + 1, a[i].sp) == Some(i)
  }

  /** The leader of the first `i` has not yielded to any of them. */
  lemma {:induction false} LeaderHolds(g: Grammar, a: seq<Action>, i: nat, sp: nat)
    requires i <= |a|
    ensures var c := Leader(g, a, i, sp); c.Some? ==> Successor(g, a, c.value, c.value + 1) >= i
  {
    if i > 0 {
      LeaderHolds(g, a, i - 1, sp);
      var c := Leader(g, a, i - 1, sp);
      if c.Some? && Leader(g, a, i, sp) == c { assert !YieldsAt(g, a, c.value, i - 1); }
    }
  }

  /** Inside row `i`, before action `i` meets action `j`. */
  function Between(g: Grammar, a: seq<Action>, b0: seq<Action>, i: nat, j: nat, k: nat): Action
    requires i < j <= |a| == |b0| && k < |a|
  {
    if !Takes(g, a, i) then b0[k]
    else if k == i then Outcome(g, a, i, j)
    else if i < k < j && Live(a[k]) && a[k].sp == a[i].sp && k < Successor(g, a, i, i + 1) then Refused(g, a[i], a[k])
    else b0[k]
  }

  ghost predicate IsBetween(g: Grammar, a: seq<Action>, b0: seq<Action>, b: seq<Action>, i: nat, j: nat)
  {
    i < j <= |a| == |b0| == |b| && forall k | 0 <= k < |a| :: b[k] == Between(g, a, b0, i, j, k)
  }

  /** An action that takes the lead finds the rest of its group as it was. */
  lemma TakesFresh(g: Grammar, a: seq<Action>, b0: seq<Action>, i: nat, k: nat)
    requires AsExpected(g, a, b0, i) && i <= k < |a| && Takes(g, a, i) && a[k].sp == a[i].sp
    ensures b0[k] == a[k] && Live(a[i])
  {
    LeaderHolds(g, a, i, a[i].sp);
    var c := Leader(g, a, i, a[i].sp);
    if c.Some? { assert YieldsAt(g, a, c.value, i); }
  }

  /** One that does not is out of the game already, or never was in it. */
  lemma OthersAreOut(g: Grammar, a: seq<Action>, b0: seq<Action>, i: nat)
    requires AsExpected(g, a, b0, i) && i < |a| && !Takes(g, a, i)
    ensures !Live(b0[i])
  {
    LeaderHolds(g, a, i, a[i].sp);
    var c := Leader(g, a, i, a[i].sp);
    if Live(a[i]) { assert c.Some? && !YieldsAt(g, a, c.value, i); }
  }

  /** A leader that meets an action keeps the lead or yields, as the pair is resolved. */
  lemma LeaderMeets(g: Grammar, x: Action, y: Action)
    requires Live(x) && Live(y) && !y.kind.SHIFT? && x.sp == y.sp
    ensures var p := ResolvePair(g, x, y);
            if Yields(g, x, y) then p.0 == Replaced(g, x, y) && p.1 == y else p.0 == x && p.1 == Refused(g, x, y)
    ensures ResolvePair(g, x, y).2 == if Undecided(g, x, y) then 1 else 0
  {
  }

  lemma MeetOne(g: Grammar, a: seq<Action>, b0: seq<Action>, b: seq<Action>, i: nat, j: nat)
    requires Grouped(a) && Plain(a) && AsExpected(g, a, b0, i) && IsBetween(g, a, b0, b, i, j) && j < |a| && a[j].sp == a[i].sp
    ensures var p := ResolvePair(g, b[i], b[j]); IsBetween(g, a, b0, b[i := p.0][j := p.1], i, j + 1)
  {
    if Takes(g, a, i) { TakerMeets(g, a, b0, b, i, j); } else { OutMeets(g, a, b0, b, i, j); }
  }

  lemma OutMeets(g: Grammar, a: seq<Action>, b0: seq<Action>, b: seq<Action>, i: nat, j: nat)
    requires AsExpected(g, a, b0, i) && IsBetween(g, a, b0, b, i, j) && j < |a| && !Takes(g, a, i)
    ensures var p := ResolvePair(g, b[i], b[j]); IsBetween(g, a, b0, b[i := p.0][j := p.1], i, j + 1)
  {
    OthersAreOut(g, a, b0, i);
    var p := ResolvePair(g, b[i], b[j]);
    assert p.0 == b[i] && p.1 == b[j];
    assert b[i := p.0][j := p.1] == b;
  }

  lemma TakerMeets(g: Grammar, a: seq<Action>, b0: seq<Action>, b: seq<Action>, i: nat, j: nat)
    requires Grouped(a) && Plain(a) && AsExpected(g, a, b0, i) && IsBetween(g, a, b0, b, i, j) && j < |a| && a[j].sp == a[i].sp && Takes(g, a, i)
    ensures var p := ResolvePair(g, b[i], b[j]); IsBetween(g, a, b0, b[i := p.0][j := p.1], i, j + 1)
  {
    TakesFresh(g, a, b0, i, j);
    TakesFresh(g, a, b0, i, i);
    var p, d := ResolvePair(g, b[i], b[j]), Successor(g, a, i, i + 1);
    assert b[j] == a[j] && b[i] == Outcome(g, a, i, j);
    if d < j {
      assert !Live(b[i]) && p.0 == b[i] && p.1 == b[j];
    } else if Live(a[j]) {
      LeaderMeets(g, a[i], a[j]);
      assert d == j <==> YieldsAt(g, a, i, j);
    } else {
      assert d != j && p.0 == b[i] && p.1 == b[j];
    }
    PairBetween(g, a, b0, b, i, j, p.0, p.1);
  }

  lemma PairBetween(g: Grammar, a: seq<Action>, b0: seq<Action>, b: seq<Action>, i: nat, j: nat, x: Action, y: Action)
    requires IsBetween(g, a, b0, b, i, j) && j < |a| && x == Between(g, a, b0, i, j + 1, i) && y == Between(g, a, b0, i, j + 1, j)
    ensures IsBetween(g, a, b0, b[i := x][j := y], i, j + 1)
  {
    var b' := b[i := x][j := y];
    forall k | 0 <= k < |a| ensures b'[k] == Between(g, a, b0, i, j + 1, k) {
      if k != i && k != j { assert b[k] == Between(g, a, b0, i, j, k); }
    }
  }

  /** At the end of the group the row is done. */
  lemma RowIsDone(g: Grammar, a: seq<Action>, b0: seq<Action>, b: seq<Action>, i: nat, j: nat)
    requires Grouped(a) && AsExpected(g, a, b0, i) && IsBetween(g, a, b0, b, i, j) && (j == |a| || a[j].sp != a[i].sp)
    ensures AsExpected(g, a, b, i + 1)
  {
    forall k | 0 <= k < |a| ensures b[k] == Expected(g, a, i + 1, k) {
      if j <= k { assert a[i].sp <= a[j].sp <= a[k].sp; }
      if Takes(g, a, i) { TakenRow(g, a, b0, b, i, j, k); } else { LeftRow(g, a, b0, b, i, j, k); }
    }
  }

  lemma TakenRow(g: Grammar, a: seq<Action>, b0: seq<Action>, b: seq<Action>, i: nat, j: nat, k: nat)
    requires Grouped(a) && AsExpected(g, a, b0, i) && IsBetween(g, a, b0, b, i, j) && k < |a| && Takes(g, a, i)
    requires forall l | j <= l < |a| :: a[l].sp != a[i].sp
    ensures b[k] == Expected(g, a, i + 1, k)
  {
    var d := Successor(g, a, i, i + 1);
    TakesFresh(g, a, b0, i, i);
    assert d < j || d == |a|;
    if k > i && a[k].sp == a[i].sp { TakesFresh(g, a, b0, i, k); }
  }

  lemma LeftRow(g: Grammar, a: seq<Action>, b0: seq<Action>, b: seq<Action>, i: nat, j: nat, k: nat)
    requires AsExpected(g, a, b0, i) && IsBetween(g, a, b0, b, i, j) && k < |a| && !Takes(g, a, i)
    ensures b[k] == Expected(g, a, i + 1, k)
  {
    LeaderHolds(g, a, i, a[i].sp);
    assert b[k] == b0[k] == Expected(g, a, i, k);
    if k == i {
      var c := Leader(g, a, i, a[i].sp);
      if Live(a[i]) { assert c.Some? && !YieldsAt(g, a, c.value, i); }
    }
  }

  lemma MeetIsScan(g: Grammar, a: seq<Action>, b0: seq<Action>, i: nat)
    requires Grouped(a) && Plain(a) && AsExpected(g, a, b0, i) && i < |a|
    ensures AsExpected(g, a, Meet(g, b0, i, i + 1), i + 1)
  {
    var b, j := b0, i + 1;
    RowBegins(g, a, b0, i);
    while j < |a| && a[j].sp == a[i].sp
      invariant IsBetween(g, a, b0, b, i, j) && Meet(g, b, i, j) == Meet(g, b0, i, i + 1)
    {
      MeetOne(g, a, b0, b, i, j);
      MeetGoesOn(g, a, b0, b, i, j);
      b, j := Paired(g, b, i, j), j + 1;
    }
    RowIsDone(g, a, b0, b, i, j);
    MeetStops(g, a, b0, b, i, j);
  }

  lemma MeetStops(g: Grammar, a: seq<Action>, b0: seq<Action>, b: seq<Action>, i: nat, j: nat)
    requires AsExpected(g, a, b0, i) && IsBetween(g, a, b0, b, i, j) && (j == |a| || a[j].sp != a[i].sp)
    ensures Meet(g, b, i, j) == b
  {
    SameLookahead(g, a, b0, b, i, j, i);
    if j < |b| { SameLookahead(g, a, b0, b, i, j, j); }
  }

  lemma MeetGoesOn(g: Grammar, a: seq<Action>, b0: seq<Action>, b: seq<Action>, i: nat, j: nat)
    requires AsExpected(g, a, b0, i) && IsBetween(g, a, b0, b, i, j) && j < |a| && a[j].sp == a[i].sp
    ensures Meet(g, b, i, j) == Meet(g, Paired(g, b, i, j), i, j + 1)
  {
    SameLookahead(g, a, b0, b, i, j, i);
    SameLookahead(g, a, b0, b, i, j, j);
  }

  /** The list after one meeting. */
  function Paired(g: Grammar, b: seq<Action>, i: nat, j: nat): seq<Action>
    requires i < j < |b|
  {
    var p := ResolvePair(g, b[i], b[j]);
    b[i := p.0][j := p.1]
  }

  lemma SameLookahead(g: Grammar, a: seq<Action>, b0: seq<Action>, b: seq<Action>, i: nat, j: nat, k: nat)
    requires AsExpected(g, a, b0, i) && IsBetween(g, a, b0, b, i, j) && k < |a|
    ensures b[k].sp == a[k].sp
  {
    assert b0[k] == Expected(g, a, i, k) && b[k] == Between(g, a, b0, i, j, k);
  }

  lemma {:induction false} RowsAreScan(g: Grammar, a: seq<Action>, b: seq<Action>, i: nat)
    requires Grouped(a) && Plain(a) && AsExpected(g, a, b, i)
    ensures AsExpected(g, a, ResolveFrom(g, b, i), |a|)
    decreases |b| - i
  {
    if i < |b| {
      var b' := Meet(g, b, i, i + 1);
      MeetIsScan(g, a, b, i);
      RowsAreScan(g, a, b', i + 1);
      assert ResolveFrom(g, b, i) == ResolveFrom(g, b', i + 1);
    }
  }

  lemma RowBegins(g: Grammar, a: seq<Action>, b: seq<Action>, i: nat)
    requires AsExpected(g, a, b, i) && i < |a|
    ensures IsBetween(g, a, b, b, i, i + 1)
  {
    if Takes(g, a, i) { TakesFresh(g, a, b, i, i); }
  }

  /** What the pairwise loop leaves is what the scan leaves. */
  lemma LoopIsScan(g: Grammar, a: seq<Action>, k: nat)
    requires Grouped(a) && Plain(a) && k < |a|
    ensures ResolveFrom(g, a, 0)[k] == Scanned(g, a, k)
  {
    RowsAreScan(g, a, a, 0);
  }

  // ---------------------------------------------------------------------------
  // The winner
  // ---------------------------------------------------------------------------

  lemma {:induction false} LeaderStays(g: Grammar, a: seq<Action>, k: nat, n: nat)
    requires k < n <= |a| && Takes(g, a, k) && Successor(g, a, k, k + 1) >= n
    ensures Leader(g, a, n, a[k].sp) == Some(k)
  {
    if n > k + 1 {
      LeaderStays(g, a, k, n - 1);
      assert !YieldsAt(g, a, k, n - 1);
    }
  }

  lemma {:induction false} LeaderTook(g: Grammar, a: seq<Action>, k: nat, n: nat)
    requires k < n <= |a| && Leader(g, a, n, a[k].sp) == Some(k)
    ensures Takes(g, a, k)
  {
    if n > k + 1 { LeaderTook(g, a, k, n - 1); }
  }

  /** After resolution an action is live exactly if it leads at the end of the scan. */
  lemma LiveIsLeader(g: Grammar, a: seq<Action>, k: nat)
    requires Grouped(a) && Plain(a) && k < |a|
    ensures Live(ResolveFrom(g, a, 0)[k]) <==> Leader(g, a, |a|, a[k].sp) == Some(k)
    ensures Live(ResolveFrom(g, a, 0)[k]) ==> ResolveFrom(g, a, 0)[k] == a[k]
  {
    LoopIsScan(g, a, k);
    if Leader(g, a, |a|, a[k].sp) == Some(k) {
      LeaderHolds(g, a, |a|, a[k].sp);
      LeaderTook(g, a, k, |a|);
    } else if Live(Scanned(g, a, k)) {
      LeaderStays(g, a, k, |a|);
    }
  }

  lemma {:induction false} NobodyLeads(g: Grammar, a: seq<Action>, n: nat, sp: nat)
    requires n <= |a| && forall i | 0 <= i < n && a[i].sp == sp :: !Live(a[i])
    ensures Leader(g, a, n, sp).None?
  {
    if n > 0 { NobodyLeads(g, a, n - 1, sp); }
  }

  /** The first action of a lookahead wins if it yields to no other. */
  lemma FirstWins(g: Grammar, a: seq<Action>, k: nat)
    requires Grouped(a) && Plain(a) && k < |a| && Live(a[k])
    requires forall i | 0 <= i < k && a[i].sp == a[k].sp :: !Live(a[i])
    requires forall j | k < j < |a| && a[j].sp == a[k].sp && Live(a[j]) :: !Yields(g, a[k], a[j])
    ensures ResolveFrom(g, a, 0)[k] == a[k]
  {
    NobodyLeads(g, a, k, a[k].sp);
    assert Successor(g, a, k, k + 1) == |a|;
    LeaderStays(g, a, k, |a|);
    LiveIsLeader(g, a, k);
  }

  // ---------------------------------------------------------------------------
  // Two actions, by the precedences of the grammar
  // ---------------------------------------------------------------------------

  /** The precedence of the symbol that gives a rule its precedence. */
  function RulePrec(g: Grammar, r: nat): int
    requires r < |g.rules|
  {
    if g.rules[r].precsym.Some? && g.rules[r].precsym.value < |g.prec| then g.prec[g.rules[r].precsym.value] else -1
  }

  /** Actions `i` and `j` are the only live ones on their lookahead. */
  ghost predicate OnlyTwo(a: seq<Action>, i: nat, j: nat)
  {
    && i < j < |a| && a[i].sp == a[j].sp && Live(a[i]) && Live(a[j])
    && forall k | 0 <= k < |a| && k != i && k != j && a[k].sp == a[i].sp :: !Live(a[k])
  }

  lemma OnlyTwoScanned(g: Grammar, a: seq<Action>, i: nat, j: nat)
    requires OnlyTwo(a, i, j)
    ensures Scanned(g, a, i) == if Yields(g, a[i], a[j]) then Replaced(g, a[i], a[j]) else a[i]
    ensures Scanned(g, a, j) == if Yields(g, a[i], a[j]) then a[j] else Refused(g, a[i], a[j])
  {
    NobodyLeads(g, a, i, a[i].sp);
    assert Takes(g, a, i);
    var d := Successor(g, a, i, i + 1);
    assert if Yields(g, a[i], a[j]) then d == j else d == |a| by { assert YieldsAt(g, a, i, j) <==> Yields(g, a[i], a[j]); }
    LeaderStays(g, a, i, j);
    assert Successor(g, a, j, j + 1) == |a|;
  }

  /**
   A shift on `t` against a reduction by `r`.  The higher precedence wins; between equal ones
   a right-associative `t` shifts, a left-associative one reduces, and any other leaves an
   error and the reduction; without precedences the shift wins and a conflict is noted.
   */
  lemma ShiftOrReduce(g: Grammar, a: seq<Action>, i: nat, j: nat, t: nat, r: nat)
    requires Grouped(a) && Plain(a) && OnlyTwo(a, i, j) && a[i].kind.SHIFT? && a[j] == Action(t, REDUCE(r)) && r < |g.rules| && t < |g.prec| == |g.assoc|
    ensures var p, q, b := g.prec[t], RulePrec(g, r), ResolveFrom(g, a, 0);
            if p < 0 || q < 0 then b[i] == a[i] && b[j].kind == SRCONFLICT
            else if p > q || (p == q && g.assoc[t] == RIGHT) then b[i] == a[i] && b[j].kind == RD_RESOLVED
            else if p < q || g.assoc[t] == LEFT then b[i].kind == SH_RESOLVED && b[j] == a[j]
            else b[i].kind == Kind.ERROR && b[j] == a[j]
  {
    LoopIsScan(g, a, i);
    LoopIsScan(g, a, j);
    OnlyTwoScanned(g, a, i, j);
  }

  /** A reduction by `r` against a later one by `q`: the higher precedence wins, otherwise the first one, with a conflict. */
  lemma ReduceOrReduce(g: Grammar, a: seq<Action>, i: nat, j: nat, t: nat, r: nat, q: nat)
    requires Grouped(a) && Plain(a) && OnlyTwo(a, i, j) && a[i] == Action(t, REDUCE(r)) && a[j] == Action(t, REDUCE(q)) && r < |g.rules| && q < |g.rules|
    ensures var p, p', b := RulePrec(g, r), RulePrec(g, q), ResolveFrom(g, a, 0);
            if p < 0 || p' < 0 || p == p' then b[i] == a[i] && b[j].kind == RRCONFLICT
            else if p > p' then b[i] == a[i] && b[j].kind == RD_RESOLVED
            else b[i].kind == RD_RESOLVED && b[j] == a[j]
  {
    LoopIsScan(g, a, i);
    LoopIsScan(g, a, j);
    OnlyTwoScanned(g, a, i, j);
  }
}
