/**
 The first two passes of `CompressTables` over the action list of a state.  Pass one makes
 the most frequent reduction its default, pass two turns shifts into auto-reduce states
 into shift-reduces.  Each pass is specified by what it does to the row of the table.
 */
module Compress {
  import opened Options
  import opened Grammars
  import opened Actions
  import opened Machine
  import opened MergeSort
  import opened FindActions
  import opened Lalr
  import opened Optimized

  // ---------------------------------------------------------------------------
  // Lists and rows
  // ---------------------------------------------------------------------------

  /** The list makes exactly the entries of the row, one per lookahead. */
  ghost predicate Lists(ap: seq<Action>, row: map<nat, Act>)
  {
    && UniqueEmit(ap)
    && (forall k | 0 <= k < |ap| && Emits(ap[k]) :: ap[k].sp in row && row[ap[k].sp] == ActOf(ap[k].kind).value)
    && (forall x {:trigger HasAction(ap, x, row[x])} | x in row :: HasAction(ap, x, row[x]))
  }

  lemma ListsRow(ap: seq<Action>)
    requires UniqueEmit(ap)
    ensures Lists(ap, RowOf(ap))
  {
    forall k: nat | k < |ap| && Emits(ap[k]) ensures ap[k].sp in RowOf(ap) && RowOf(ap)[ap[k].sp] == ActOf(ap[k].kind).value {
      RowHas(ap, k);
    }
    forall x | x in RowOf(ap) ensures HasAction(ap, x, RowOf(ap)[x]) { RowEntry(ap, x); }
  }

  lemma RowIs(ap: seq<Action>, row: map<nat, Act>)
    requires Lists(ap, row)
    ensures RowOf(ap) == row
  {
    ListsRow(ap);
    forall x ensures x in RowOf(ap) <==> x in row {
      if x in RowOf(ap) { assert HasAction(ap, x, RowOf(ap)[x]); }
      if x in row {
        assert HasAction(ap, x, row[x]);
        var k :| 0 <= k < |ap| && ap[k].sp == x && ActOf(ap[k].kind) == Some(row[x]);
        assert Emits(ap[k]);
      }
    }
    forall x | x in row ensures RowOf(ap)[x] == row[x] {
      assert HasAction(ap, x, row[x]);
      var k :| 0 <= k < |ap| && ap[k].sp == x && ActOf(ap[k].kind) == Some(row[x]);
      assert Emits(ap[k]);
    }
  }

  lemma {:induction false} TwoPositions<T>(a: seq<T>, v: T)
    requires multiset(a)[v] >= 2
    ensures exists i, j :: 0 <= i < j < |a| && a[i] == a[j] == v
  {
    assert a == [a[0]] + a[1..];
    if a[0] == v {
      assert v in a[1..];
      var j :| 0 <= j < |a[1..]| && a[1..][j] == v;
      assert a[j + 1] == v;
    } else {
      TwoPositions(a[1..], v);
      var i, j :| 0 <= i < j < |a[1..]| && a[1..][i] == a[1..][j] == v;
      assert a[i + 1] == a[j + 1] == v;
    }
  }

  /** Sorting a list does not change its row. */
  lemma PermutedLists(a: seq<Action>, b: seq<Action>, row: map<nat, Act>)
    requires Lists(a, row) && multiset(a) == multiset(b)
    ensures Lists(b, row)
  {
    forall v ensures v in a <==> v in b { assert v in multiset(a) <==> v in multiset(b); }
    forall k, l | 0 <= k < l < |b| && Emits(b[k]) && Emits(b[l]) ensures b[k].sp != b[l].sp {
      if b[k] == b[l] {
        CountTwo(b, k, l);
        TwoPositions(a, b[k]);
      } else {
        assert b[k] in b && b[l] in b;
        var i :| 0 <= i < |a| && a[i] == b[k];
        var j :| 0 <= j < |a| && a[j] == b[l];
      }
    }
    forall k | 0 <= k < |b| && Emits(b[k]) ensures b[k].sp in row && row[b[k].sp] == ActOf(b[k].kind).value {
      assert b[k] in b;
      var i :| 0 <= i < |a| && a[i] == b[k];
    }
    forall x | x in row ensures HasAction(b, x, row[x]) {
      assert HasAction(a, x, row[x]);
      var i :| 0 <= i < |a| && a[i].sp == x && ActOf(a[i].kind) == Some(row[x]);
      assert a[i] in a;
      var j :| 0 <= j < |b| && b[j] == a[i];
    }
  }

  // ---------------------------------------------------------------------------
  // Pass one: default reductions
  // ---------------------------------------------------------------------------

  /** How often the list reduces by `r`, from position `k` on. */
  function CountFrom(ap: seq<Action>, r: nat, k: nat): nat
    requires k <= |ap|
    decreases |ap| - k
  {
    if k == |ap| then 0 else (if ap[k].kind == REDUCE(r) then 1 else 0) + CountFrom(ap, r, k + 1)
  }

  lemma {:induction false} CountSplit(ap: seq<Action>, r: nat, j: nat, k: nat)
    requires j <= k <= |ap|
    ensures CountFrom(ap, r, j) >= CountFrom(ap, r, k)
    ensures (forall i | j <= i < k :: ap[i].kind != REDUCE(r)) ==> CountFrom(ap, r, j) == CountFrom(ap, r, k)
    decreases k - j
  {
    if j < k { CountSplit(ap, r, j + 1, k); }
  }

  /** `rbest` is the most frequent reduction by a rule of a symbol other than the start symbol. */
  ghost predicate MostFrequent(g: Grammar, ap: seq<Action>, rbest: Option<nat>)
  {
    match rbest
    case None => forall k | 0 <= k < |ap| && ap[k].kind.REDUCE? :: IsStartRule(g, ap[k].kind.rp)
    case Some(r) =>
      && !IsStartRule(g, r) && CountFrom(ap, r, 0) > 0
      && forall q: nat | !IsStartRule(g, q) :: CountFrom(ap, q, 0) <= CountFrom(ap, r, 0)
  }

  /** No reduction that the list has before the first one by `r` is as frequent. */
  ghost predicate FirstOfBest(g: Grammar, ap: seq<Action>, r: nat)
  {
    exists j :: 0 <= j < |ap| && ap[j].kind == REDUCE(r) && LessBefore(g, ap, CountFrom(ap, r, 0), j)
  }

  ghost predicate LessBefore(g: Grammar, ap: seq<Action>, n: nat, j: nat)
  {
    forall i | 0 <= i < j <= |ap| && ap[i].kind.REDUCE? && !IsStartRule(g, ap[i].kind.rp) :: CountFrom(ap, ap[i].kind.rp, 0) < n
  }

  /** The search for the most frequent reduction; of several, it finds the one that comes first. */
  method BestReduction(g: Grammar, ap: seq<Action>) returns (rbest: Option<nat>)
    ensures MostFrequent(g, ap, rbest)
    ensures rbest.Some? ==> FirstOfBest(g, ap, rbest.value)
  {
    var nbest := 0;
    rbest := None;
    var k := 0;
    while k < |ap|
      invariant 0 <= k <= |ap|
      invariant rbest.None? ==> nbest == 0
      invariant rbest.Some? ==> !IsStartRule(g, rbest.value) && 0 < nbest == CountFrom(ap, rbest.value, 0) && FirstOfBest(g, ap, rbest.value)
      invariant forall i | 0 <= i < k && ap[i].kind.REDUCE? && !IsStartRule(g, ap[i].kind.rp) :: CountFrom(ap, ap[i].kind.rp, 0) <= nbest
    {
      if ap[k].kind.REDUCE? && !IsStartRule(g, ap[k].kind.rp) && rbest != Some(ap[k].kind.rp) {
        var rp := ap[k].kind.rp;
        var n := 1;
        var j := k + 1;
        while j < |ap|
          invariant k < j <= |ap|
          invariant n + CountFrom(ap, rp, j) == CountFrom(ap, rp, k)
        {
          if ap[j].kind.REDUCE? && rbest != Some(ap[j].kind.rp) && ap[j].kind.rp == rp { n := n + 1; }
          j := j + 1;
        }
        CountSplit(ap, rp, 0, k);
        if n > nbest {
          assert CountFrom(ap, rp, 0) >= n && LessBefore(g, ap, n, k);
          nbest, rbest := n, Some(rp);
        }
      }
      k := k + 1;
    }
    forall q: nat | !IsStartRule(g, q) ensures CountFrom(ap, q, 0) <= nbest {
      CountSplit(ap, q, 0, |ap|);
    }
    forall i: nat | i < |ap| && ap[i].kind.REDUCE? ensures CountFrom(ap, ap[i].kind.rp, 0) > 0 {
      CountSplit(ap, ap[i].kind.rp, 0, i);
    }
  }

  /** The row after pass one: `best` is the default, and its entries are gone. */
  function Row1(g: Grammar, row: map<nat, Act>, best: Option<nat>): map<nat, Act>
  {
    match best
    case None => row
    case Some(r) => (map x | x in row && row[x] != Reduce(r) :: row[x])[g.Default() := Reduce(r)]
  }

  /** The rule of the state if it is an auto-reduce state: nothing but the default is left to do. */
  ghost function AutoFor(row: map<nat, Act>, best: Option<nat>): Option<nat>
  {
    if best.Some? && (forall x | x in row :: !row[x].Shift? && (row[x].Reduce? ==> row[x] == Reduce(best.value))) then best else None
  }

  /** The list is ordered by symbols. */
  ghost predicate BySymbol(ap: seq<Action>)
  {
    forall i, j | 0 <= i < j < |ap| :: ap[i].sp <= ap[j].sp
  }

  /** Every action on a nonterminal makes a table entry. */
  ghost predicate GotosEmit(g: Grammar, ap: seq<Action>)
  {
    forall k | 0 <= k < |ap| && ap[k].sp >= g.nterminal :: Emits(ap[k])
  }

  /** Reductions are on terminals. */
  ghost predicate TokenReduces(g: Grammar, ap: seq<Action>)
  {
    forall k | 0 <= k < |ap| && ap[k].kind.REDUCE? :: ap[k].sp < g.nterminal
  }

  lemma PermutedGotos(g: Grammar, a: seq<Action>, b: seq<Action>)
    requires GotosEmit(g, a) && multiset(a) == multiset(b)
    ensures GotosEmit(g, b)
  {
    forall k | 0 <= k < |b| && b[k].sp >= g.nterminal ensures Emits(b[k]) {
      assert b[k] in multiset(a);
    }
  }

  /** The first reduction by `r` is moved to the default, the others are marked unused. */
  method MakeDefault(g: Grammar, ap: seq<Action>, r: nat, ghost row: map<nat, Act>) returns (ap': seq<Action>)
    requires Lists(ap, row) && g.Default() !in row && CountFrom(ap, r, 0) > 0
    requires GotosEmit(g, ap) && TokenReduces(g, ap)
    ensures Lists(ap', Row1(g, row, Some(r))) && |ap'| == |ap| && GotosEmit(g, ap')
  {
    var k := FirstReduction(ap, r);
    ap' := MarkUnused(ap, r, k);
    ap' := ap'[k := Action(g.Default(), REDUCE(r))];
    DefaultRow(g, ap, ap', k, r, row);
    MarkedGotos(g, ap, ap', k, r);
  }

  method FirstReduction(ap: seq<Action>, r: nat) returns (k: nat)
    requires CountFrom(ap, r, 0) > 0
    ensures k < |ap| && ap[k].kind == REDUCE(r) && forall i | 0 <= i < k :: ap[i].kind != REDUCE(r)
  {
    k := 0;
    while k < |ap| && ap[k].kind != REDUCE(r)
      invariant 0 <= k <= |ap|
      invariant forall i | 0 <= i < k :: ap[i].kind != REDUCE(r)
    {
      k := k + 1;
    }
    CountSplit(ap, r, 0, k);
  }

  /** Mark the reductions by `r` after the first one. */
  method MarkUnused(ap: seq<Action>, r: nat, k: nat) returns (ap': seq<Action>)
    requires k < |ap| && forall i | 0 <= i < k :: ap[i].kind != REDUCE(r)
    ensures |ap'| == |ap| && forall i | 0 <= i < |ap| && i != k :: ap'[i] == if ap[i].kind == REDUCE(r) then ap[i].(kind := NOT_USED) else ap[i]
  {
    ap' := ap;
    var j := k + 1;
    while j < |ap|
      invariant k < j <= |ap| == |ap'|
      invariant forall i | 0 <= i < |ap| && i != k ::
                  ap'[i] == if i < j && ap[i].kind == REDUCE(r) then ap[i].(kind := NOT_USED) else ap[i]
    {
      if ap'[j].kind == REDUCE(r) { ap' := ap'[j := ap'[j].(kind := NOT_USED)]; }
      j := j + 1;
    }
  }

  lemma MarkedGotos(g: Grammar, ap: seq<Action>, ap': seq<Action>, k: nat, r: nat)
    requires GotosEmit(g, ap) && TokenReduces(g, ap) && |ap'| == |ap| && k < |ap| && ap'[k] == Action(g.Default(), REDUCE(r))
    requires forall i | 0 <= i < |ap| && i != k :: ap'[i] == if ap[i].kind == REDUCE(r) then ap[i].(kind := NOT_USED) else ap[i]
    ensures GotosEmit(g, ap')
  {
  }

  lemma DefaultRow(g: Grammar, ap: seq<Action>, ap': seq<Action>, k: nat, r: nat, row: map<nat, Act>)
    requires Lists(ap, row) && g.Default() !in row && |ap'| == |ap| && k < |ap| && ap[k].kind == REDUCE(r)
    requires ap'[k] == Action(g.Default(), REDUCE(r))
    requires forall i | 0 <= i < |ap| && i != k :: ap'[i] == if ap[i].kind == REDUCE(r) then ap[i].(kind := NOT_USED) else ap[i]
    ensures Lists(ap', Row1(g, row, Some(r)))
  {
    var row' := Row1(g, row, Some(r));
    forall i | 0 <= i < |ap'| && Emits(ap'[i]) && i != k ensures ap'[i] == ap[i] && ap[i].sp in row && row[ap[i].sp] != Reduce(r) {
    }
    forall x | x in row' ensures HasAction(ap', x, row'[x]) {
      if x == g.Default() {
        assert ap'[k].sp == x;
      } else {
        assert HasAction(ap, x, row[x]);
        var i :| 0 <= i < |ap| && ap[i].sp == x && ActOf(ap[i].kind) == Some(row[x]);
        assert ap'[i] == ap[i];
      }
    }
  }

  /** Does the list shift, or reduce by another rule than `r`? */
  method OnlyReduces(ap: seq<Action>, r: nat, ghost row: map<nat, Act>) returns (only: bool)
    requires Lists(ap, row)
    ensures only <==> forall x | x in row :: !row[x].Shift? && (row[x].Reduce? ==> row[x] == Reduce(r))
  {
    var k := 0;
    while k < |ap|
      invariant 0 <= k <= |ap|
      invariant forall i | 0 <= i < k :: !ap[i].kind.SHIFT? && (ap[i].kind.REDUCE? ==> ap[i].kind == REDUCE(r))
    {
      if ap[k].kind.SHIFT? || (ap[k].kind.REDUCE? && ap[k].kind != REDUCE(r)) {
        assert Emits(ap[k]);
        return false;
      }
      k := k + 1;
    }
    forall x | x in row ensures !row[x].Shift? && (row[x].Reduce? ==> row[x] == Reduce(r)) {
      assert HasAction(ap, x, row[x]);
    }
    return true;
  }

  /** Pass one on one state. */
  method DefaultReduce(g: Grammar, ap: seq<Action>, ghost row: map<nat, Act>) returns (ap': seq<Action>, auto: Option<nat>, ghost best: Option<nat>)
    requires Lists(ap, row) && g.Default() !in row && |ap| < Pow2(LISTSIZE)
    requires GotosEmit(g, ap) && TokenReduces(g, ap)
    ensures MostFrequent(g, ap, best)
    ensures |ap'| == |ap| && Lists(ap', Row1(g, row, best)) && GotosEmit(g, ap') && (BySymbol(ap) ==> BySymbol(ap'))
    ensures auto == AutoFor(row, best)
  {
    var rbest := BestReduction(g, ap);
    best := rbest;
    match rbest {
      case None =>
        ap', auto := ap, None;
      case Some(r) =>
        var marked := MakeDefault(g, ap, r, row);
        ap' := MSort(marked, (a: Action, b: Action) => ActionCmp(g, a, b));
        PermutedLists(marked, ap', Row1(g, row, Some(r)));
        PermutedGotos(g, marked, ap');
        SameLength(marked, ap');
        SortedBySymbol(g, ap');
        var only := OnlyReduces(ap', r, Row1(g, row, Some(r)));
        SameShifts(g, row, r);
        auto := if only then Some(r) else None;
    }
  }

  lemma SortedBySymbol(g: Grammar, ap: seq<Action>)
    requires IsOrder((a: Action, b: Action) => ActionCmp(g, a, b)) ==> Sorted(ap, (a: Action, b: Action) => ActionCmp(g, a, b))
    ensures BySymbol(ap)
  {
    ActionCmpIsOrder(g);
    forall i, j | 0 <= i < j < |ap| ensures ap[i].sp <= ap[j].sp { assert ActionCmp(g, ap[i], ap[j]) <= 0; }
  }

  lemma SameLength<T>(a: seq<T>, b: seq<T>)
    requires multiset(a) == multiset(b)
    ensures |a| == |b|
  {
    assert |multiset(a)| == |a| && |multiset(b)| == |b|;
  }

  lemma SameShifts(g: Grammar, row: map<nat, Act>, r: nat)
    requires g.Default() !in row
    ensures (forall x | x in Row1(g, row, Some(r)) :: var a := Row1(g, row, Some(r))[x]; !a.Shift? && (a.Reduce? ==> a == Reduce(r))) <==>
            (forall x | x in row :: !row[x].Shift? && (row[x].Reduce? ==> row[x] == Reduce(r)))
  {
    var row' := Row1(g, row, Some(r));
    if forall x | x in row' :: !row'[x].Shift? && (row'[x].Reduce? ==> row'[x] == Reduce(r)) {
      forall x | x in row ensures !row[x].Shift? && (row[x].Reduce? ==> row[x] == Reduce(r)) {
        if row[x] != Reduce(r) { assert x in row' && row'[x] == row[x]; }
      }
    }
  }

  // ---------------------------------------------------------------------------
  // Pass two: shift-reduce
  // ---------------------------------------------------------------------------

  /** A shift into an auto-reduce state becomes a shift-reduce by its rule. */
  function Convert(auto: Autos, a: Act): Act
  {
    if a.Shift? && AutoOf(auto, a.st).Some? then ShiftReduce(AutoOf(auto, a.st).value) else a
  }

  function Row2(auto: Autos, row: map<nat, Act>): map<nat, Act>
  {
    map x | x in row :: Convert(auto, row[x])
  }

  function ConvertKind(auto: Autos, k: Kind): Kind
  {
    if k.SHIFT? && AutoOf(auto, k.stp).Some? then SHIFTREDUCE(AutoOf(auto, k.stp).value) else k
  }

  method ShiftReducePass(auto: Autos, ap: seq<Action>, ghost row: map<nat, Act>) returns (ap': seq<Action>)
    requires Lists(ap, row)
    ensures Lists(ap', Row2(auto, row)) && |ap'| == |ap|
    ensures forall k | 0 <= k < |ap| :: ap'[k].sp == ap[k].sp && (Emits(ap'[k]) <==> Emits(ap[k]))
  {
    ap' := ap;
    var k := 0;
    while k < |ap|
      invariant 0 <= k <= |ap| == |ap'|
      invariant forall i | 0 <= i < k :: ap'[i] == ap[i].(kind := ConvertKind(auto, ap[i].kind))
      invariant forall i | k <= i < |ap| :: ap'[i] == ap[i]
    {
      ap' := ap'[k := ap'[k].(kind := ConvertKind(auto, ap'[k].kind))];
      k := k + 1;
    }
    ConvertedRow(auto, ap, ap', row);
  }

  lemma ConvertedRow(auto: Autos, ap: seq<Action>, ap': seq<Action>, row: map<nat, Act>)
    requires Lists(ap, row) && |ap'| == |ap| && forall k | 0 <= k < |ap| :: ap'[k] == ap[k].(kind := ConvertKind(auto, ap[k].kind))
    ensures Lists(ap', Row2(auto, row))
  {
    forall k | 0 <= k < |ap| ensures ap'[k].sp == ap[k].sp && (Emits(ap'[k]) <==> Emits(ap[k])) { }
    forall k | 0 <= k < |ap| && Emits(ap'[k]) ensures ap'[k].sp in row && Convert(auto, row[ap'[k].sp]) == ActOf(ap'[k].kind).value {
      assert row[ap[k].sp] == ActOf(ap[k].kind).value;
    }
    forall x | x in row ensures HasAction(ap', x, Convert(auto, row[x])) {
      assert HasAction(ap, x, row[x]);
      var k :| 0 <= k < |ap| && ap[k].sp == x && ActOf(ap[k].kind) == Some(row[x]);
      assert ap'[k].sp == x && ActOf(ap'[k].kind) == Some(Convert(auto, row[x]));
    }
  }
}
