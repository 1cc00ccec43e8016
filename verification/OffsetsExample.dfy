/** A grammar of which the last kept state has no action on a token: the offset table for tokens ends before it. */
module OffsetsExample {
  import opened Options
  import opened Grammars
  import opened Actions
  import opened MergeSort
  import opened Lalr
  import opened Optimized
  import opened Resort
  import opened Packing

  const TOKEN: nat := 1
  const START: nat := 2
  const LIST: nat := 3
  const ITEM: nat := 4
  const TAIL: nat := 5
  const DEFAULT: nat := 6

  /** A list of items; an item is a token with a tail that is always empty. */
  function ListGrammar(): Grammar
  {
    Grammar(2, 6,
            [Rule(START, [LIST], 0, false, None), Rule(LIST, [LIST, ITEM], 1, false, None), Rule(LIST, [], 2, false, None),
             Rule(ITEM, [TOKEN, TAIL], 3, false, None), Rule(TAIL, [], 4, false, None)],
            START, [-1, -1, -1, -1, -1, -1], [UNK, UNK, UNK, UNK, UNK, UNK])
  }

  /** Its compressed actions.  The third state, after a token, has a default and a goto only. */
  function ListActions(): ActionLists
  {
    [[Action(START, ACCEPT), Action(LIST, SHIFT(1)), Action(DEFAULT, REDUCE(2))],
     [Action(0, REDUCE(0)), Action(TOKEN, SHIFT(2)), Action(ITEM, SHIFTREDUCE(1))],
     [Action(TAIL, SHIFTREDUCE(3)), Action(DEFAULT, REDUCE(4))],
     [Action(DEFAULT, REDUCE(1))],
     [Action(DEFAULT, REDUCE(3))]]
  }

  /** The last two states only reduce. */
  const AUTO: Autos := [None, None, None, Some(1), Some(3)]

  function ListSorting(): Sorting
  {
    Sorting([0, 1, 2, 4, 3], [0, 1, 2, 4, 3], [0, 2, 0, 0, 0], [2, 1, 1, 0, 0], [2, 5, 4, 1, 3], 3)
  }

  function Ap(s: nat): seq<Action>
    requires s < 5
  {
    ListActions()[s]
  }

  lemma CountOne(g: Grammar, ap: seq<Action>, a: Action, isTkn: bool)
    ensures CountPart(g, ap + [a], isTkn) == CountPart(g, ap, isTkn) + if Emits(a) && InPart(g, isTkn, a.sp) then 1 else 0
  {
    assert (ap + [a])[..|ap|] == ap;
  }

  lemma CountThree(g: Grammar, a: Action, b: Action, c: Action, isTkn: bool)
    ensures CountPart(g, [a], isTkn) == if Emits(a) && InPart(g, isTkn, a.sp) then 1 else 0
    ensures CountPart(g, [a, b], isTkn) == CountPart(g, [a], isTkn) + if Emits(b) && InPart(g, isTkn, b.sp) then 1 else 0
    ensures CountPart(g, [a, b, c], isTkn) == CountPart(g, [a, b], isTkn) + if Emits(c) && InPart(g, isTkn, c.sp) then 1 else 0
  {
    CountOne(g, [], a, isTkn);
    CountOne(g, [a], b, isTkn);
    CountOne(g, [a, b], c, isTkn);
    assert [] + [a] == [a] && [a] + [b] == [a, b] && [a, b] + [c] == [a, b, c];
  }

  lemma Counts(s: nat)
    requires s < 5
    ensures CountPart(ListGrammar(), Ap(s), true) == ListSorting().nTknAct[s] && CountPart(ListGrammar(), Ap(s), false) == ListSorting().nNtAct[s]
  {
    var ap := Ap(s);
    var last := ap[|ap| - 1];
    var second := if |ap| > 1 then ap[1] else last;
    CountThree(ListGrammar(), ap[0], second, last, true);
    CountThree(ListGrammar(), ap[0], second, last, false);
    assert ap == [ap[0]] || ap == [ap[0], second] || ap == [ap[0], second, last];
  }

  lemma RowOne(a: Action, rest: seq<Action>)
    requires Emits(a)
    ensures RowOf([a] + rest) == RowOf(rest)[a.sp := ActOf(a.kind).value]
  {
    assert ([a] + rest)[1..] == rest;
  }

  lemma Defaults(s: nat)
    requires s < 5
    ensures ListSorting().iDfltReduce[s] + 5 + 5 == DefaultCode(ListGrammar(), ListSorting().num, RowOf(Ap(s)))
  {
    var ap := Ap(s);
    RowOne(ap[0], ap[1..]);
    assert ap == [ap[0]] + ap[1..];
    if |ap| > 1 {
      RowOne(ap[1], ap[2..]);
      assert ap[1..] == [ap[1]] + ap[2..];
    }
    if |ap| > 2 {
      RowOne(ap[2], []);
      assert ap[2..] == [ap[2]] + [];
    }
  }

  lemma ListIsOrdered()
    ensures var so := ListSorting(); IsNumbering(so.order, so.num) && IsCut(so.order, AUTO, so.nxstate) && so.order[1..] == [1, 2, 4, 3]
  {
  }

  lemma ListIsSorted()
    ensures Resorted(ListGrammar(), ListActions(), AUTO, ListSorting())
  {
    var g, acts, so := ListGrammar(), ListActions(), ListSorting();
    forall s | 0 <= s < |acts| ensures Counted(g, acts[s], so.num, so.nTknAct[s], so.nNtAct[s], so.iDfltReduce[s]) {
      Counts(s);
      Defaults(s);
    }
    ListIsOrdered();
    forall i, j | 0 <= i < j < |so.order[1..]| ensures StateCmp(so.nTknAct, so.nNtAct, so.order[1..][i], so.order[1..][j]) <= 0 { }
  }

  lemma ListsFit(s: nat)
    requires s < 5
    ensures UniqueEmit(Ap(s)) && Encodes(ListGrammar(), ListSorting().num, Ap(s))
  {
  }

  lemma {:induction false} PowAbove(n: nat)
    ensures Pow2(n) > n
  {
    if n > 0 { PowAbove(n - 1); }
  }

  /** Three states are kept, and only two get an offset for tokens. */
  method OffsetsEndEarly() returns (pk: Packed, ghost ax: seq<Ax>, ghost log: seq<Stage>)
    ensures pk.nxstate == 3 && |pk.shiftOfst| < 3
  {
    ListIsSorted();
    PowAbove(LISTSIZE);
    Counts(2);
    forall s | 0 <= s < |ListActions()| ensures UniqueEmit(ListActions()[s]) && Encodes(ListGrammar(), ListSorting().num, ListActions()[s]) { ListsFit(s); }
    pk, ax, log := PackTables(ListGrammar(), ListActions(), AUTO, ListSorting());
  }
}
