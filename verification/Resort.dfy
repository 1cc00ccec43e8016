/**
 `ResortStates`: count the actions of every state, renumber the states so that those
 with the most actions come first and the auto-reduce states last, and find how many
 states the parser needs.
 */
module Resort {
  import opened Options
  import opened Grammars
  import opened Configlist
  import opened Actions
  import opened MergeSort
  import opened FindActions
  import opened Machine
  import opened Lalr
  import opened Optimized

  /** The number of an action in the tables; `num` numbers the states. */
  function Code(num: seq<nat>, nrule: nat, a: Act): int
  {
    match a
    case Shift(t) => if t < |num| then num[t] else -1
    case ShiftReduce(r) => |num| + r
    case Reduce(r) => |num| + nrule + r
    case Error => |num| + nrule * 2
    case Accept => |num| + nrule * 2 + 1
  }

  /** `compute_action`: negative if the action makes no table entry. */
  function ComputeAction(num: seq<nat>, nrule: nat, kind: Kind): int
  {
    match ActOf(kind)
    case None => -1
    case Some(a) => Code(num, nrule, a)
  }

  /** The part of a row that one offset serves: the tokens, or the nonterminals. */
  predicate InPart(g: Grammar, isTkn: bool, x: nat)
  {
    if isTkn then x < g.nterminal else g.nterminal <= x < g.nsymbol
  }

  /** How many entries a list makes in one part of its row. */
  function CountPart(g: Grammar, ap: seq<Action>, isTkn: bool): nat
  {
    if ap == [] then 0
    else CountPart(g, ap[..|ap| - 1], isTkn) + if Emits(ap[|ap| - 1]) && InPart(g, isTkn, ap[|ap| - 1].sp) then 1 else 0
  }

  /** The default action of a state, or a syntax error. */
  function DefaultCode(g: Grammar, num: seq<nat>, row: map<nat, Act>): int
  {
    if g.Default() in row then Code(num, |g.rules|, row[g.Default()]) else Code(num, |g.rules|, Error)
  }

  /** What renumbering needs of the actions of a state. */
  ghost predicate Sortable(g: Grammar, n: nat, ap: seq<Action>)
  {
    && UniqueEmit(ap) && g.nterminal <= g.nsymbol
    && forall k | 0 <= k < |ap| && Emits(ap[k]) ::
         && ap[k].sp <= g.nsymbol
         && (ap[k].kind.SHIFT? ==> ap[k].kind.stp < n)
         && (ap[k].sp == g.nsymbol ==> ap[k].kind.REDUCE?)
  }

  lemma {:induction false} CountIsZero(g: Grammar, ap: seq<Action>, isTkn: bool)
    ensures CountPart(g, ap, isTkn) == 0 <==> forall x | x in RowOf(ap) :: !InPart(g, isTkn, x)
  {
    if ap != [] {
      var ap' := ap[..|ap| - 1];
      CountIsZero(g, ap', isTkn);
      RowOfLast(ap);
    }
  }

  /** The keys of a row, from the end of the list. */
  lemma {:induction false} RowOfLast(ap: seq<Action>)
    requires ap != []
    ensures forall x :: x in RowOf(ap) <==> x in RowOf(ap[..|ap| - 1]) || (Emits(ap[|ap| - 1]) && ap[|ap| - 1].sp == x)
  {
    if |ap| > 1 {
      RowOfLast(ap[1..]);
      assert ap[1..][..|ap| - 2] == ap[..|ap| - 1][1..];
    }
  }

  /** Count the actions of one state and find its default. */
  method CountActions(g: Grammar, ap: seq<Action>, n: nat, ghost num: seq<nat>) returns (nTknAct: nat, nNtAct: nat, iDfltReduce: int)
    requires Sortable(g, n, ap) && |num| == n
    ensures Counted(g, ap, num, nTknAct, nNtAct, iDfltReduce)
  {
    nTknAct, nNtAct, iDfltReduce := 0, 0, |g.rules|;
    var ids := seq(n, i => i);
    var k := 0;
    while k < |ap|
      invariant 0 <= k <= |ap|
      invariant nTknAct == CountPart(g, ap[..k], true) && nNtAct == CountPart(g, ap[..k], false)
      invariant g.Default() !in RowOf(ap[..k]) ==> iDfltReduce == |g.rules|
      invariant g.Default() in RowOf(ap[..k]) ==> g.Default() in RowOf(ap) && iDfltReduce + n + |g.rules| == Code(num, |g.rules|, RowOf(ap)[g.Default()])
    {
      assert ap[..k + 1][..k] == ap[..k];
      RowOfLast(ap[..k + 1]);
      var iAction := ComputeAction(ids, |g.rules|, ap[k].kind);
      assert iAction >= 0 <==> Emits(ap[k]);
      if iAction >= 0 {
        if ap[k].sp < g.nterminal {
          nTknAct := nTknAct + 1;
        } else if ap[k].sp < g.nsymbol {
          nNtAct := nNtAct + 1;
        } else {
          RowHas(ap, k);
          iDfltReduce := iAction - n - |g.rules|;
        }
      }
      k := k + 1;
    }
    assert ap[..k] == ap;
  }

  // ---------------------------------------------------------------------------
  // The new numbers
  // ---------------------------------------------------------------------------

  /** Most nonterminal actions first, then most token actions, then the higher old number. */
  function StateCmp(nTknAct: seq<nat>, nNtAct: seq<nat>, a: nat, b: nat): int
  {
    if a >= |nTknAct| || b >= |nTknAct| || |nNtAct| != |nTknAct| then (b as int) - a
    else if nNtAct[b] != nNtAct[a] then nNtAct[b] - nNtAct[a]
    else if nTknAct[b] != nTknAct[a] then nTknAct[b] - nTknAct[a]
    else (b as int) - a
  }

  /** `order` lists the states by number, `num` gives their numbers; state 0 keeps its place. */
  ghost predicate IsNumbering(order: seq<nat>, num: seq<nat>)
  {
    && |order| == |num| > 0 && order[0] == 0
    && (forall s | 0 <= s < |num| :: num[s] < |order| && order[num[s]] == s)
    && (forall k | 0 <= k < |order| :: order[k] < |num| && num[order[k]] == k)
  }

  /** States from `nxstate` on only reduce, and no fewer states would do. */
  ghost predicate IsCut(order: seq<nat>, auto: Autos, nxstate: nat)
  {
    && 1 <= nxstate <= |order| && (forall k | 0 <= k < |order| :: order[k] < |auto|)
    && (forall k | nxstate <= k < |order| :: auto[order[k]].Some?)
    && (nxstate > 1 ==> auto[order[nxstate - 1]].None?)
  }

  lemma StateCmpIsOrder(nTknAct: seq<nat>, nNtAct: seq<nat>)
    requires |nTknAct| == |nNtAct|
    ensures IsOrder((a: nat, b: nat) => StateCmp(nTknAct, nNtAct, a, b))
  {
  }

  /** Give every state its place in `order` as its number. */
  method Renumber(order: seq<nat>) returns (num: seq<nat>)
    requires NoDup(order) && order != [] && order[0] == 0 && (forall s :: s in order <==> 0 <= s < |order|)
    ensures IsNumbering(order, num)
  {
    num := seq(|order|, _ => 0);
    var i := 0;
    while i < |order|
      invariant 0 <= i <= |order| == |num|
      invariant forall k | 0 <= k < i :: order[k] < |num| && num[order[k]] == k
    {
      assert order[i] in order;
      num := num[order[i] := i];
      i := i + 1;
    }
    forall s | 0 <= s < |num| ensures num[s] < |order| && order[num[s]] == s {
      assert s in order;
    }
  }

  /** Sort all states but the first. */
  method SortStates(nTknAct: seq<nat>, nNtAct: seq<nat>) returns (order: seq<nat>)
    requires 0 < |nTknAct| == |nNtAct| < Pow2(LISTSIZE)
    ensures NoDup(order) && order != [] && order[0] == 0 && |order| == |nTknAct| && (forall s :: s in order <==> 0 <= s < |order|)
    ensures Sorted(order[1..], (a, b) => StateCmp(nTknAct, nNtAct, a, b))
  {
    var ids := Ids(|nTknAct|);
    var rest := MSort(ids, (a: nat, b: nat) => StateCmp(nTknAct, nNtAct, a, b));
    assert Sorted(rest, (a, b) => StateCmp(nTknAct, nNtAct, a, b)) by { StateCmpIsOrder(nTknAct, nNtAct); }
    order := [0] + rest;
    FirstAndRest(ids, rest);
    assert order[1..] == rest;
  }

  /** All states but the first. */
  function Ids(n: nat): (ids: seq<nat>)
    requires n > 0
    ensures |ids| == n - 1 && NoDup(ids) && forall s :: s in ids <==> 1 <= s < n
  {
    var ids := seq(n - 1, i requires i >= 0 => i + 1);
    assert forall s: int :: 1 <= s < n ==> s in ids by {
      forall s: int | 1 <= s < n ensures s in ids { assert ids[s - 1] == s; }
    }
    ids
  }

  lemma FirstAndRest(ids: seq<nat>, rest: seq<nat>)
    requires NoDup(ids) && multiset(rest) == multiset(ids) && forall s :: s in ids <==> 1 <= s <= |ids|
    ensures |rest| == |ids| && NoDup([0] + rest) && forall s :: s in [0] + rest <==> 0 <= s <= |rest|
  {
    SameElements(ids, rest);
    assert |multiset(ids)| == |ids| && |multiset(rest)| == |rest|;
    assert 0 !in rest;
    NoDupPrepend(rest, 0);
  }

  /** How many states are left when the auto-reduce states at the end are cut off. */
  method CutStates(order: seq<nat>, auto: Autos) returns (nxstate: nat)
    requires order != [] && forall k | 0 <= k < |order| :: order[k] < |auto|
    ensures IsCut(order, auto, nxstate)
  {
    nxstate := |order|;
    while nxstate > 1 && auto[order[nxstate - 1]].Some?
      invariant 1 <= nxstate <= |order|
      invariant forall k | nxstate <= k < |order| :: auto[order[k]].Some?
    {
      nxstate := nxstate - 1;
    }
  }

  /** The counts and the default of one state are right. */
  ghost predicate Counted(g: Grammar, ap: seq<Action>, num: seq<nat>, nTknAct: nat, nNtAct: nat, iDfltReduce: int)
  {
    && nTknAct == CountPart(g, ap, true) && nNtAct == CountPart(g, ap, false)
    && iDfltReduce + |num| + |g.rules| == DefaultCode(g, num, RowOf(ap))
  }

  /** The counts and default of every state, its new number, and how many states are kept. */
  datatype Sorting = Sorting(order: seq<nat>, num: seq<nat>, nTknAct: seq<nat>, nNtAct: seq<nat>, iDfltReduce: seq<int>, nxstate: nat)

  ghost predicate Resorted(g: Grammar, acts: ActionLists, auto: Autos, so: Sorting)
  {
    && |so.num| == |so.nTknAct| == |so.nNtAct| == |so.iDfltReduce| == |acts|
    && IsNumbering(so.order, so.num) && IsCut(so.order, auto, so.nxstate)
    && (forall s | 0 <= s < |acts| :: Counted(g, acts[s], so.num, so.nTknAct[s], so.nNtAct[s], so.iDfltReduce[s]))
    && Sorted(so.order[1..], (a, b) => StateCmp(so.nTknAct, so.nNtAct, a, b))
  }

  /** The states after the first come by their nonterminal actions, then by their token actions, the most first; then the later ones first. */
  ghost predicate MostFirst(so: Sorting)
  {
    && |so.nTknAct| == |so.nNtAct|
    && forall i, j | 1 <= i < j < |so.order| && so.order[i] < |so.nTknAct| && so.order[j] < |so.nTknAct| ::
         var a, b := so.order[i], so.order[j];
         so.nNtAct[a] > so.nNtAct[b] || (so.nNtAct[a] == so.nNtAct[b] && (so.nTknAct[a] > so.nTknAct[b] || (so.nTknAct[a] == so.nTknAct[b] && a >= b)))
  }

  lemma SortedMostFirst(so: Sorting)
    requires so.order != [] && |so.nTknAct| == |so.nNtAct| && Sorted(so.order[1..], (a, b) => StateCmp(so.nTknAct, so.nNtAct, a, b))
    ensures MostFirst(so)
  {
    var rest := so.order[1..];
    forall i, j | 1 <= i < j < |so.order| ensures StateCmp(so.nTknAct, so.nNtAct, so.order[i], so.order[j]) <= 0 {
      assert rest[i - 1] == so.order[i] && rest[j - 1] == so.order[j];
    }
  }

  /** The symbols of one part on which the row has an entry. */
  ghost function PartOf(g: Grammar, row: map<nat, Act>, isTkn: bool): set<nat>
  {
    set x | x in row && InPart(g, isTkn, x)
  }

  /** The symbols on which the first `n` actions make an entry of the part. */
  ghost function Spots(g: Grammar, ap: seq<Action>, isTkn: bool, n: nat): set<nat>
    requires n <= |ap|
  {
    set k | 0 <= k < n && Fills(g, ap[k], isTkn) :: ap[k].sp
  }

  /** The action makes an entry of the part. */
  predicate Fills(g: Grammar, a: Action, isTkn: bool)
  {
    Emits(a) && InPart(g, isTkn, a.sp)
  }

  /** The counted entries are the symbols with an entry. */
  lemma {:induction false} CountIsSpots(g: Grammar, ap: seq<Action>, isTkn: bool, n: nat)
    requires UniqueEmit(ap) && n <= |ap|
    ensures CountPart(g, ap[..n], isTkn) == |Spots(g, ap, isTkn, n)|
  {
    if n == 0 {
      assert Spots(g, ap, isTkn, 0) == {};
    } else {
      CountIsSpots(g, ap, isTkn, n - 1);
      assert ap[..n][..n - 1] == ap[..n - 1];
      SpotsNext(g, ap, isTkn, n - 1);
    }
  }

  lemma SpotsNext(g: Grammar, ap: seq<Action>, isTkn: bool, n: nat)
    requires UniqueEmit(ap) && n < |ap|
    ensures |Spots(g, ap, isTkn, n + 1)| == |Spots(g, ap, isTkn, n)| + if Fills(g, ap[n], isTkn) then 1 else 0
  {
    var before, after := Spots(g, ap, isTkn, n), Spots(g, ap, isTkn, n + 1);
    forall x | x in after ensures x in before || (Fills(g, ap[n], isTkn) && x == ap[n].sp) {
      var k :| 0 <= k < n + 1 && Fills(g, ap[k], isTkn) && ap[k].sp == x;
    }
    forall x | x in before ensures x in after && (Fills(g, ap[n], isTkn) ==> x != ap[n].sp) {
      var k :| 0 <= k < n && Fills(g, ap[k], isTkn) && ap[k].sp == x;
    }
    if Fills(g, ap[n], isTkn) {
      assert ap[n].sp in after;
      assert after == before + {ap[n].sp};
    } else {
      assert after == before;
    }
  }

  /** The number of entries in one part of a row. */
  lemma CountIsPart(g: Grammar, ap: seq<Action>, isTkn: bool)
    requires UniqueEmit(ap)
    ensures CountPart(g, ap, isTkn) == |PartOf(g, RowOf(ap), isTkn)|
  {
    CountIsSpots(g, ap, isTkn, |ap|);
    assert ap[..|ap|] == ap;
    var all := Spots(g, ap, isTkn, |ap|);
    forall x | x in all ensures x in PartOf(g, RowOf(ap), isTkn) {
      var k :| 0 <= k < |ap| && Fills(g, ap[k], isTkn) && ap[k].sp == x;
      RowHas(ap, k);
    }
    forall x | x in PartOf(g, RowOf(ap), isTkn) ensures x in all {
      RowEntry(ap, x);
      var k :| 0 <= k < |ap| && ap[k].sp == x && ActOf(ap[k].kind) == Some(RowOf(ap)[x]);
      assert Fills(g, ap[k], isTkn);
    }
    assert all == PartOf(g, RowOf(ap), isTkn);
  }

  /** The default of a state does not depend on how the states are numbered. */
  lemma DefaultIgnoresNumbers(g: Grammar, ap: seq<Action>, num: seq<nat>, num': seq<nat>)
    requires Sortable(g, |num|, ap) && |num| == |num'|
    ensures DefaultCode(g, num, RowOf(ap)) == DefaultCode(g, num', RowOf(ap))
  {
    if g.Default() in RowOf(ap) {
      RowEntry(ap, g.Default());
      var k :| 0 <= k < |ap| && ap[k].sp == g.Default() && ActOf(ap[k].kind) == Some(RowOf(ap)[g.Default()]);
      assert Emits(ap[k]);
    }
  }

  method CountAll(g: Grammar, acts: ActionLists, ghost num: seq<nat>) returns (nTknAct: seq<nat>, nNtAct: seq<nat>, iDfltReduce: seq<int>)
    requires |num| == |acts| && forall s | 0 <= s < |acts| :: Sortable(g, |acts|, acts[s])
    ensures |nTknAct| == |nNtAct| == |iDfltReduce| == |acts|
    ensures forall s | 0 <= s < |acts| :: Counted(g, acts[s], num, nTknAct[s], nNtAct[s], iDfltReduce[s])
  {
    nTknAct, nNtAct, iDfltReduce := [], [], [];
    var i := 0;
    while i < |acts|
      invariant 0 <= i <= |acts| && |nTknAct| == |nNtAct| == |iDfltReduce| == i
      invariant forall s | 0 <= s < i :: Counted(g, acts[s], num, nTknAct[s], nNtAct[s], iDfltReduce[s])
    {
      var t, n, d := CountActions(g, acts[i], |acts|, num);
      nTknAct, nNtAct, iDfltReduce := nTknAct + [t], nNtAct + [n], iDfltReduce + [d];
      i := i + 1;
    }
  }

  method ResortStates(g: Grammar, acts: ActionLists, auto: Autos) returns (so: Sorting)
    requires 0 < |acts| == |auto| < Pow2(LISTSIZE) && forall s | 0 <= s < |acts| :: Sortable(g, |acts|, acts[s])
    ensures Resorted(g, acts, auto, so) && MostFirst(so)
    ensures forall s | 0 <= s < |acts| :: so.nTknAct[s] == |PartOf(g, RowOf(acts[s]), true)| && so.nNtAct[s] == |PartOf(g, RowOf(acts[s]), false)|
  {
    ghost var ids := seq(|acts|, i requires i >= 0 => i);
    var nTknAct, nNtAct, iDfltReduce := CountAll(g, acts, ids);
    var order := SortStates(nTknAct, nNtAct);
    var num := Renumber(order);
    var nxstate := CutStates(order, auto);
    forall s | 0 <= s < |acts| ensures Counted(g, acts[s], num, nTknAct[s], nNtAct[s], iDfltReduce[s]) {
      DefaultIgnoresNumbers(g, acts[s], ids, num);
    }
    so := Sorting(order, num, nTknAct, nNtAct, iDfltReduce, nxstate);
    SortedMostFirst(so);
    forall s | 0 <= s < |acts| ensures so.nTknAct[s] == |PartOf(g, RowOf(acts[s]), true)| && so.nNtAct[s] == |PartOf(g, RowOf(acts[s]), false)| {
      CountIsPart(g, acts[s], true);
      CountIsPart(g, acts[s], false);
    }
  }
}
