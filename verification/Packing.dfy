/**
 The table part of `ReportTable`: the rows of all kept states are inserted into the
 action table, the largest first, and the offset and default tables are written out.
 */
module Packing {
  import opened Options
  import opened Grammars
  import opened Actions
  import opened MergeSort
  import opened Machine
  import opened Lalr
  import opened Optimized
  import opened ActTab
  import opened Resort

  // ---------------------------------------------------------------------------
  // Transactions of states
  // ---------------------------------------------------------------------------

  /** The transaction for one part of the actions of a state. */
  function Trans(g: Grammar, num: seq<nat>, ap: seq<Action>, isTkn: bool): seq<Slot>
  {
    if ap == [] then []
    else
      var last := ap[|ap| - 1];
      Trans(g, num, ap[..|ap| - 1], isTkn) +
      if Emits(last) && InPart(g, isTkn, last.sp) then [Slot(last.sp, ComputeAction(num, |g.rules|, last.kind))] else []
  }

  lemma {:induction false} TransCount(g: Grammar, num: seq<nat>, ap: seq<Action>, isTkn: bool)
    ensures |Trans(g, num, ap, isTkn)| == CountPart(g, ap, isTkn)
  {
    if ap != [] { TransCount(g, num, ap[..|ap| - 1], isTkn); }
  }

  ghost predicate FromAction(g: Grammar, num: seq<nat>, ap: seq<Action>, isTkn: bool, x: Slot)
  {
    exists k :: 0 <= k < |ap| && Emits(ap[k]) && InPart(g, isTkn, ap[k].sp) && x == Slot(ap[k].sp, ComputeAction(num, |g.rules|, ap[k].kind))
  }

  /** Exactly the actions of the list in the part are in the transaction. */
  lemma {:induction false} TransFrom(g: Grammar, num: seq<nat>, ap: seq<Action>, isTkn: bool, x: Slot)
    ensures x in Trans(g, num, ap, isTkn) <==> FromAction(g, num, ap, isTkn, x)
  {
    if ap != [] {
      var ap' := ap[..|ap| - 1];
      TransFrom(g, num, ap', isTkn, x);
      if FromAction(g, num, ap, isTkn, x) {
        var k :| 0 <= k < |ap| && Emits(ap[k]) && InPart(g, isTkn, ap[k].sp) && x == Slot(ap[k].sp, ComputeAction(num, |g.rules|, ap[k].kind));
        if k < |ap'| { assert ap'[k] == ap[k]; }
      }
      if FromAction(g, num, ap', isTkn, x) {
        var k :| 0 <= k < |ap'| && Emits(ap'[k]) && InPart(g, isTkn, ap'[k].sp) && x == Slot(ap'[k].sp, ComputeAction(num, |g.rules|, ap'[k].kind));
        assert ap[k] == ap'[k];
      }
    }
  }

  lemma {:induction false} TransDistinct(g: Grammar, num: seq<nat>, ap: seq<Action>, isTkn: bool)
    requires UniqueEmit(ap)
    ensures DistinctTrans(Trans(g, num, ap, isTkn))
  {
    if ap != [] {
      var ap' := ap[..|ap| - 1];
      TransDistinct(g, num, ap', isTkn);
      var t' := Trans(g, num, ap', isTkn);
      forall j | 0 <= j < |t'| ensures Emits(ap[|ap| - 1]) ==> t'[j].lookahead != ap[|ap| - 1].sp {
        TransFrom(g, num, ap', isTkn, t'[j]);
      }
    }
  }

  /** The actions of the transaction are one part of the row. */
  lemma TransIsPart(g: Grammar, num: seq<nat>, ap: seq<Action>, isTkn: bool, la: nat)
    requires UniqueEmit(ap)
    ensures la in ByLookahead(Trans(g, num, ap, isTkn)) <==> la in RowOf(ap) && InPart(g, isTkn, la)
    ensures la in ByLookahead(Trans(g, num, ap, isTkn)) ==> ByLookahead(Trans(g, num, ap, isTkn))[la] == Code(num, |g.rules|, RowOf(ap)[la])
  {
    var t := Trans(g, num, ap, isTkn);
    TransDistinct(g, num, ap, isTkn);
    LookaheadHolds(t);
    if la in ByLookahead(t) {
      var x := Slot(la, ByLookahead(t)[la]);
      TransFrom(g, num, ap, isTkn, x);
      var k :| 0 <= k < |ap| && Emits(ap[k]) && InPart(g, isTkn, ap[k].sp) && x == Slot(ap[k].sp, ComputeAction(num, |g.rules|, ap[k].kind));
      RowHas(ap, k);
    }
    if la in RowOf(ap) && InPart(g, isTkn, la) {
      RowEntry(ap, la);
      var k :| 0 <= k < |ap| && ap[k].sp == la && ActOf(ap[k].kind) == Some(RowOf(ap)[la]);
      assert Emits(ap[k]);
      TransFrom(g, num, ap, isTkn, Slot(la, ComputeAction(num, |g.rules|, ap[k].kind)));
    }
  }

  // ---------------------------------------------------------------------------
  // Filling the action table
  // ---------------------------------------------------------------------------

  lemma FreshLookahead(g: Grammar, num: seq<nat>, ap: seq<Action>, isTkn: bool, k: nat)
    requires UniqueEmit(ap) && k < |ap| && Emits(ap[k])
    ensures ap[k].sp !in ByLookahead(Trans(g, num, ap[..k], isTkn))
  {
    var t := Trans(g, num, ap[..k], isTkn);
    TransDistinct(g, num, ap[..k], isTkn);
    LookaheadHolds(t);
    if ap[k].sp in ByLookahead(t) {
      TransFrom(g, num, ap[..k], isTkn, Slot(ap[k].sp, ByLookahead(t)[ap[k].sp]));
    }
  }

  lemma TransGrows(g: Grammar, num: seq<nat>, ap: seq<Action>, isTkn: bool, k: nat)
    requires k < |ap|
    ensures Trans(g, num, ap[..k + 1], isTkn) ==
            if Emits(ap[k]) && InPart(g, isTkn, ap[k].sp)
            then Trans(g, num, ap[..k], isTkn) + [Slot(ap[k].sp, ComputeAction(num, |g.rules|, ap[k].kind))]
            else Trans(g, num, ap[..k], isTkn)
  {
    assert ap[..k + 1][..k] == ap[..k];
  }

  /** Enter one part of the actions of a state as a transaction. */
  method AddPart(b: Builder, g: Grammar, num: seq<nat>, ap: seq<Action>, isTkn: bool)
    requires b.Valid() && b.aLookahead == [] && UniqueEmit(ap)
    requires forall k | 0 <= k < |ap| && Emits(ap[k]) :: ComputeAction(num, |g.rules|, ap[k].kind) >= 0
    modifies b
    ensures b.Valid() && b.aLookahead == Trans(g, num, ap, isTkn)
    ensures b.aAction == old(b.aAction) && b.nAction == old(b.nAction)
  {
    var k := 0;
    while k < |ap|
      invariant 0 <= k <= |ap| && b.Valid() && b.aLookahead == Trans(g, num, ap[..k], isTkn)
      invariant b.aAction == old(b.aAction) && b.nAction == old(b.nAction)
    {
      AddEntry(b, g, num, ap, isTkn, k);
      k := k + 1;
    }
    assert ap[..k] == ap;
  }

  method AddEntry(b: Builder, g: Grammar, num: seq<nat>, ap: seq<Action>, isTkn: bool, k: nat)
    requires b.Valid() && k < |ap| && b.aLookahead == Trans(g, num, ap[..k], isTkn) && UniqueEmit(ap)
    requires Emits(ap[k]) ==> ComputeAction(num, |g.rules|, ap[k].kind) >= 0
    modifies b
    ensures b.Valid() && b.aLookahead == Trans(g, num, ap[..k + 1], isTkn)
    ensures b.aAction == old(b.aAction) && b.nAction == old(b.nAction)
  {
    TransGrows(g, num, ap, isTkn, k);
    if InPart(g, isTkn, ap[k].sp) {
      var action := ComputeAction(num, |g.rules|, ap[k].kind);
      if action >= 0 {
        FreshLookahead(g, num, ap, isTkn, k);
        b.AddAction(ap[k].sp, action);
      }
    }
  }

  /** One part of one kept state, with its number of actions. */
  datatype Ax = Ax(st: nat, isTkn: bool, nAction: nat, iOrder: nat)

  /** The largest set of actions first. */
  function AxCmp(a: Ax, b: Ax): int
  {
    if b.nAction != a.nAction then b.nAction - a.nAction else a.iOrder - b.iOrder
  }

  lemma AxCmpIsOrder()
    ensures IsOrder((a: Ax, b: Ax) => AxCmp(a, b))
  {
  }

  ghost predicate AxOK(g: Grammar, acts: ActionLists, a: Ax)
  {
    a.st < |acts| && a.nAction == CountPart(g, acts[a.st], a.isTkn)
  }

  /** The two parts of each of the first `i` states. */
  function Parts(g: Grammar, acts: ActionLists, order: seq<nat>, i: nat): (list: seq<Ax>)
    requires i <= |order| && forall k | 0 <= k < |order| :: order[k] < |acts|
    ensures |list| == 2 * i
  {
    if i == 0 then []
    else
      var s := order[i - 1];
      Parts(g, acts, order, i - 1) + [Ax(s, true, CountPart(g, acts[s], true), 2 * (i - 1)), Ax(s, false, CountPart(g, acts[s], false), 2 * (i - 1) + 1)]
  }

  lemma {:induction false} PartsOK(g: Grammar, acts: ActionLists, order: seq<nat>, i: nat)
    requires i <= |order| && forall k | 0 <= k < |order| :: order[k] < |acts|
    ensures forall k | 0 <= k < |Parts(g, acts, order, i)| :: AxOK(g, acts, Parts(g, acts, order, i)[k])
    ensures forall k | 0 <= k < i :: HasPart(Parts(g, acts, order, i), order[k], true) && HasPart(Parts(g, acts, order, i), order[k], false)
  {
    if i > 0 {
      PartsOK(g, acts, order, i - 1);
      var before, list := Parts(g, acts, order, i - 1), Parts(g, acts, order, i);
      PartsStay(before, list);
      assert list[2 * (i - 1)].st == order[i - 1] && list[2 * (i - 1) + 1].st == order[i - 1];
      assert HasPart(list, order[i - 1], true) && HasPart(list, order[i - 1], false);
    }
  }

  /** The numbers of actions in the parts of all states are known. */
  ghost predicate PartsKnown(g: Grammar, acts: ActionLists, so: Sorting)
  {
    && so.nxstate <= |so.order| && (forall k | 0 <= k < |so.order| :: so.order[k] < |acts|) && |so.nTknAct| == |so.nNtAct| == |acts|
    && forall s | 0 <= s < |acts| :: so.nTknAct[s] == CountPart(g, acts[s], true) && so.nNtAct[s] == CountPart(g, acts[s], false)
  }

  lemma ResortedKnowsParts(g: Grammar, acts: ActionLists, auto: Autos, so: Sorting)
    requires Resorted(g, acts, auto, so)
    ensures PartsKnown(g, acts, so)
  {
    forall s | 0 <= s < |acts| ensures so.nTknAct[s] == CountPart(g, acts[s], true) && so.nNtAct[s] == CountPart(g, acts[s], false) {
      assert Counted(g, acts[s], so.num, so.nTknAct[s], so.nNtAct[s], so.iDfltReduce[s]);
    }
  }

  lemma NextParts(g: Grammar, acts: ActionLists, order: seq<nat>, i: nat, s: nat)
    requires i < |order| && (forall k | 0 <= k < |order| :: order[k] < |acts|) && s == order[i]
    ensures Parts(g, acts, order, i + 1) ==
            Parts(g, acts, order, i) + [Ax(s, true, CountPart(g, acts[s], true), 2 * i), Ax(s, false, CountPart(g, acts[s], false), 2 * i + 1)]
  {
  }

  method AllParts(g: Grammar, acts: ActionLists, so: Sorting) returns (list: seq<Ax>)
    requires PartsKnown(g, acts, so)
    ensures list == Parts(g, acts, so.order, so.nxstate)
  {
    list := [];
    var i := 0;
    while i < so.nxstate
      invariant 0 <= i <= so.nxstate && list == Parts(g, acts, so.order, i)
    {
      var stp := so.order[i];
      NextParts(g, acts, so.order, i, stp);
      list := list + [Ax(stp, true, so.nTknAct[stp], 2 * i), Ax(stp, false, so.nNtAct[stp], 2 * i + 1)];
      i := i + 1;
    }
  }

  /** The parts of all kept states, the largest first. */
  ghost predicate SortedAx(g: Grammar, acts: ActionLists, so: Sorting, ax: seq<Ax>)
  {
    && so.nxstate <= |so.order| && (forall k | 0 <= k < |so.order| :: so.order[k] < |acts|)
    && multiset(ax) == multiset(Parts(g, acts, so.order, so.nxstate)) && Sorted(ax, (a: Ax, b: Ax) => AxCmp(a, b))
  }

  method SortedParts(g: Grammar, acts: ActionLists, auto: Autos, so: Sorting) returns (ax: seq<Ax>)
    requires Resorted(g, acts, auto, so) && 2 * |acts| < Pow2(LISTSIZE)
    ensures SortedAx(g, acts, so, ax) && forall i, j | 0 <= i < j < |ax| :: ax[i].nAction >= ax[j].nAction
  {
    ResortedKnowsParts(g, acts, auto, so);
    var list := AllParts(g, acts, so);
    ax := MSort(list, (a: Ax, b: Ax) => AxCmp(a, b));
    AxCmpIsOrder();
    forall i, j | 0 <= i < j < |ax| ensures ax[i].nAction >= ax[j].nAction { assert AxCmp(ax[i], ax[j]) <= 0; }
  }

  /** What the filling of the table relies on. */
  lemma SortedAxOK(g: Grammar, acts: ActionLists, so: Sorting, ax: seq<Ax>)
    requires SortedAx(g, acts, so, ax)
    ensures forall i | 0 <= i < |ax| :: AxOK(g, acts, ax[i])
    ensures forall q | 0 <= q < |so.order| && q < so.nxstate :: HasPart(ax, so.order[q], true) && HasPart(ax, so.order[q], false)
    ensures forall i, j | 0 <= i < j < |ax| :: ax[j].nAction <= ax[i].nAction
  {
    PartsOK(g, acts, so.order, so.nxstate);
    PartsPermuted(g, acts, so, Parts(g, acts, so.order, so.nxstate), ax);
    forall i, j | 0 <= i < j < |ax| ensures ax[j].nAction <= ax[i].nAction { assert AxCmp(ax[i], ax[j]) <= 0; }
  }

  lemma PartsPermuted(g: Grammar, acts: ActionLists, so: Sorting, list: seq<Ax>, ax: seq<Ax>)
    requires (forall k | 0 <= k < |list| :: AxOK(g, acts, list[k])) && multiset(list) == multiset(ax)
    requires forall q | 0 <= q < |so.order| && q < so.nxstate :: HasPart(list, so.order[q], true) && HasPart(list, so.order[q], false)
    ensures forall i | 0 <= i < |ax| :: AxOK(g, acts, ax[i])
    ensures forall q | 0 <= q < |so.order| && q < so.nxstate :: HasPart(ax, so.order[q], true) && HasPart(ax, so.order[q], false)
  {
    forall i | 0 <= i < |ax| ensures AxOK(g, acts, ax[i]) { assert ax[i] in multiset(list); }
    forall q | 0 <= q < |so.order| && q < so.nxstate ensures HasPart(ax, so.order[q], true) && HasPart(ax, so.order[q], false) {
      PermutedParts(list, ax, so.order[q], true);
      PermutedParts(list, ax, so.order[q], false);
    }
  }

  ghost predicate HasPart(ax: seq<Ax>, s: nat, isTkn: bool)
  {
    exists i :: 0 <= i < |ax| && ax[i].st == s && ax[i].isTkn == isTkn
  }

  lemma PartsStay(a: seq<Ax>, b: seq<Ax>)
    requires a <= b
    ensures forall s, isTkn | HasPart(a, s, isTkn) :: HasPart(b, s, isTkn)
  {
    forall s, isTkn | HasPart(a, s, isTkn) ensures HasPart(b, s, isTkn) {
      var i :| 0 <= i < |a| && a[i].st == s && a[i].isTkn == isTkn;
      assert b[i] == a[i];
    }
  }

  lemma PermutedParts(a: seq<Ax>, b: seq<Ax>, s: nat, isTkn: bool)
    requires multiset(a) == multiset(b) && HasPart(a, s, isTkn)
    ensures HasPart(b, s, isTkn)
  {
    var i :| 0 <= i < |a| && a[i].st == s && a[i].isTkn == isTkn;
    assert a[i] in multiset(b);
  }

  /** One insertion: the table it found, the part it inserted, and the offset it chose. */
  datatype Stage = Stage(a: seq<Slot>, n: nat, t: seq<Slot>, mn: int, mnAction: int, mx: int, ofst: int)

  ghost predicate StageOK(st: Stage)
  {
    SlotsOK(st.a, st.n) && st.t != [] && TransOK(st.t, st.mn, st.mnAction, st.mx)
  }

  /** There was room for every insertion. */
  ghost predicate Clean(log: seq<Stage>)
  {
    forall k | 0 <= k < |log| :: StageOK(log[k]) && RoomFor(log[k])
  }

  ghost predicate RoomFor(st: Stage)
    requires StageOK(st)
  {
    HasRoom(Grown(st.a, st.n, st.mx), st.n, st.t, ByLookahead(st.t), st.mn, st.mx)
  }

  /** The log tells how the table came about: stage by stage the parts are placed, each in the table that the one before left. */
  ghost predicate Logged(g: Grammar, acts: ActionLists, num: seq<nat>, ax: seq<Ax>, log: seq<Stage>, a: seq<Slot>, n: nat)
  {
    && SlotsOK(a, n) && |log| <= |ax|
    && (if log == [] then a == [] && n == 0 else log[0].a == [] && log[0].n == 0)
    && forall k | 0 <= k < |log| ::
         && StageOf(g, acts, num, ax[k], log[k])
         && StageStep(log[k], if k + 1 < |log| then log[k + 1].a else a, if k + 1 < |log| then log[k + 1].n else n)
  }

  /** The stage inserts the part. */
  ghost predicate StageOf(g: Grammar, acts: ActionLists, num: seq<nat>, p: Ax, st: Stage)
  {
    StageOK(st) && p.st < |acts| && p.nAction > 0 && st.t == Trans(g, num, acts[p.st], p.isTkn)
  }

  ghost predicate StageStep(st: Stage, b: seq<Slot>, n': nat)
  {
    IsPlaced(st.a, st.n, st.t, st.mn, st.mx, b, n', st.ofst)
  }

  lemma LogStep(g: Grammar, acts: ActionLists, num: seq<nat>, ax: seq<Ax>, log: seq<Stage>, a: seq<Slot>, n: nat, st: Stage, b: seq<Slot>, n': nat)
    requires Logged(g, acts, num, ax, log, a, n) && |log| < |ax| && StageOf(g, acts, num, ax[|log|], st) && st.a == a && st.n == n && SlotsOK(b, n')
    requires StageStep(st, b, n')
    ensures Logged(g, acts, num, ax, log + [st], b, n')
  {
    var log' := log + [st];
    forall k | 0 <= k < |log'|
      ensures StageOf(g, acts, num, ax[k], log'[k]) && StageStep(log'[k], if k + 1 < |log'| then log'[k + 1].a else b, if k + 1 < |log'| then log'[k + 1].n else n')
    {
      if k < |log| {
        var next, count := if k + 1 < |log| then log[k + 1].a else a, if k + 1 < |log| then log[k + 1].n else n;
        assert StageOf(g, acts, num, ax[k], log[k]) && StageStep(log[k], next, count);
        assert log'[k] == log[k] && log'[k + 1].a == next && log'[k + 1].n == count;
      }
    }
  }

  /** Offsets of the parts; a part without actions has none. */
  type Offsets = map<(nat, bool), int>

  /** The offsets that the stages chose for their parts. */
  ghost function OffsetsOf(ax: seq<Ax>, log: seq<Stage>): Offsets
    requires |log| <= |ax|
  {
    if log == [] then map[]
    else
      var last := |log| - 1;
      OffsetsOf(ax, log[..last])[(ax[last].st, ax[last].isTkn) := log[last].ofst]
  }

  lemma OffsetsStep(ax: seq<Ax>, log: seq<Stage>, st: Stage)
    requires |log| < |ax|
    ensures OffsetsOf(ax, log + [st]) == OffsetsOf(ax, log)[(ax[|log|].st, ax[|log|].isTkn) := st.ofst]
  {
    assert (log + [st])[..|log|] == log;
  }

  /** Every part with an offset is found there, and nothing else is, if there was room for all. */
  ghost predicate Placed(g: Grammar, acts: ActionLists, num: seq<nat>, a: seq<Slot>, n: nat, ofst: Offsets, clean: bool)
  {
    n <= |a| && forall p | p in ofst :: PartPlaced(g, acts, num, a, n, p, ofst[p], clean)
  }

  ghost predicate PartPlaced(g: Grammar, acts: ActionLists, num: seq<nat>, a: seq<Slot>, n: nat, p: (nat, bool), o: int, clean: bool)
    requires n <= |a|
  {
    && p.0 < |acts| && CountPart(g, acts[p.0], p.1) > 0
    && (clean ==> ExactRow(a, n, o, ByLookahead(Trans(g, num, acts[p.0], p.1))))
  }

  /** A part with actions has a first one. */
  lemma SomeLookahead(g: Grammar, num: seq<nat>, ap: seq<Action>, isTkn: bool) returns (la: nat)
    requires UniqueEmit(ap) && CountPart(g, ap, isTkn) > 0
    ensures la in ByLookahead(Trans(g, num, ap, isTkn))
  {
    var t := Trans(g, num, ap, isTkn);
    TransCount(g, num, ap, isTkn);
    TransDistinct(g, num, ap, isTkn);
    LookaheadHolds(t);
    la := t[0].lookahead;
  }

  lemma PlacedStep(g: Grammar, acts: ActionLists, num: seq<nat>, a: seq<Slot>, n: nat, b: seq<Slot>, n': nat, ofst: Offsets, p: (nat, bool), o: int, clean: bool, room: bool)
    requires Placed(g, acts, num, a, n, ofst, clean) && forall s | 0 <= s < |acts| :: UniqueEmit(acts[s])
    requires p.0 < |acts| && CountPart(g, acts[p.0], p.1) > 0 && n' <= |b|
    requires Updated(a, n, b, n', o, ByLookahead(Trans(g, num, acts[p.0], p.1)))
    requires room ==> RoomAt(a, n, o, ByLookahead(Trans(g, num, acts[p.0], p.1)))
    ensures Placed(g, acts, num, b, n', ofst[p := o], clean && room)
  {
    var m := ByLookahead(Trans(g, num, acts[p.0], p.1));
    if clean && room { RowIsExact(a, n, b, n', o, m); }
    forall q | q in ofst && q != p ensures PartPlaced(g, acts, num, b, n', q, ofst[q], clean && room) {
      assert PartPlaced(g, acts, num, a, n, q, ofst[q], clean);
      if clean && room {
        var la := SomeLookahead(g, num, acts[q.0], q.1);
        RowStays(a, n, b, n', o, m, ofst[q], ByLookahead(Trans(g, num, acts[q.0], q.1)), la);
      }
    }
  }

  /** Insert one part. */
  method InsertPart(b: Builder, g: Grammar, acts: ActionLists, num: seq<nat>, ax: seq<Ax>, j: nat, ghost log: seq<Stage>) returns (o: int, ghost log': seq<Stage>)
    requires b.Valid() && b.aLookahead == [] && j == |log| < |ax| && AxOK(g, acts, ax[j]) && ax[j].nAction > 0
    requires UniqueEmit(acts[ax[j].st]) && Encodes(g, num, acts[ax[j].st]) && Logged(g, acts, num, ax, log, b.aAction, b.nAction)
    modifies b
    ensures b.Valid() && b.aLookahead == [] && Logged(g, acts, num, ax, log', b.aAction, b.nAction)
    ensures |log'| == j + 1 && OffsetsOf(ax, log') == OffsetsOf(ax, log)[(ax[j].st, ax[j].isTkn) := o]
    ensures Updated(old(b.aAction), old(b.nAction), b.aAction, b.nAction, o, ByLookahead(Trans(g, num, acts[ax[j].st], ax[j].isTkn)))
    ensures Clean(log') ==> Clean(log) && RoomAt(old(b.aAction), old(b.nAction), o, ByLookahead(Trans(g, num, acts[ax[j].st], ax[j].isTkn)))
  {
    TransCount(g, num, acts[ax[j].st], ax[j].isTkn);
    AddPart(b, g, num, acts[ax[j].st], ax[j].isTkn);
    ghost var st := Stage(b.aAction, b.nAction, b.aLookahead, b.mnLookahead, b.mnAction, b.mxLookahead, 0);
    assert StageOK(st);
    o := b.Insert();
    st := st.(ofst := o);
    log' := log + [st];
    assert RoomFor(st) <==> RoomAt(st.a, st.n, o, ByLookahead(st.t));
    LogStep(g, acts, num, ax, log, st.a, st.n, st, b.aAction, b.nAction);
    OffsetsStep(ax, log, st);
    if Clean(log') { CleanStep(log, st); }
  }

  ghost predicate RoomAt(a: seq<Slot>, n: nat, o: int, m: map<int, int>)
    requires n <= |a|
  {
    EmptyRow(a, n, o) || ExactRow(a, n, o, m)
  }

  lemma CleanStep(log: seq<Stage>, st: Stage)
    requires Clean(log + [st])
    ensures Clean(log) && StageOK(st) && RoomFor(st)
  {
    forall k | 0 <= k < |log| ensures (log + [st])[k] == log[k] { }
    assert (log + [st])[|log|] == st;
  }

  /** The state of the loop that fills the table, after as many parts as the log has stages. */
  ghost predicate Filled(g: Grammar, acts: ActionLists, num: seq<nat>, ax: seq<Ax>, a: seq<Slot>, n: nat, ofst: Offsets, log: seq<Stage>)
  {
    && Logged(g, acts, num, ax, log, a, n) && ofst == OffsetsOf(ax, log) && Placed(g, acts, num, a, n, ofst, Clean(log))
    && forall j | 0 <= j < |log| :: (ax[j].st, ax[j].isTkn) in ofst
  }

  lemma FilledStep(g: Grammar, acts: ActionLists, num: seq<nat>, ax: seq<Ax>, i: nat, a: seq<Slot>, n: nat, b: seq<Slot>, n': nat, ofst: Offsets, o: int, log: seq<Stage>, log': seq<Stage>)
    requires Filled(g, acts, num, ax, a, n, ofst, log) && i == |log| < |ax| && AxOK(g, acts, ax[i]) && ax[i].nAction > 0 && |log'| == i + 1
    requires forall s | 0 <= s < |acts| :: UniqueEmit(acts[s])
    requires Logged(g, acts, num, ax, log', b, n') && OffsetsOf(ax, log') == OffsetsOf(ax, log)[(ax[i].st, ax[i].isTkn) := o]
    requires Updated(a, n, b, n', o, ByLookahead(Trans(g, num, acts[ax[i].st], ax[i].isTkn)))
    requires Clean(log') ==> Clean(log) && RoomAt(a, n, o, ByLookahead(Trans(g, num, acts[ax[i].st], ax[i].isTkn)))
    ensures Filled(g, acts, num, ax, b, n', ofst[(ax[i].st, ax[i].isTkn) := o], log')
  {
    PlacedStep(g, acts, num, a, n, b, n', ofst, (ax[i].st, ax[i].isTkn), o, Clean(log), Clean(log'));
    assert Clean(log) && Clean(log') <==> Clean(log');
  }

  method FillTable(g: Grammar, acts: ActionLists, num: seq<nat>, ax: seq<Ax>) returns (a: seq<Slot>, n: nat, ofst: Offsets, ghost log: seq<Stage>)
    requires forall k | 0 <= k < |ax| :: AxOK(g, acts, ax[k])
    requires forall s | 0 <= s < |acts| :: UniqueEmit(acts[s]) && Encodes(g, num, acts[s])
    ensures Filled(g, acts, num, ax, a, n, ofst, log) && (|log| < |ax| ==> ax[|log|].nAction == 0)
  {
    var b := new Builder();
    ofst, log := map[], [];
    var j := 0;
    while j < |ax| && ax[j].nAction > 0
      invariant 0 <= j <= |ax| && j == |log| && b.Valid() && b.aLookahead == [] && fresh(b)
      invariant Filled(g, acts, num, ax, b.aAction, b.nAction, ofst, log)
    {
      ghost var a0, n0, log0 := b.aAction, b.nAction, log;
      assert AxOK(g, acts, ax[j]);
      var o;
      o, log := InsertPart(b, g, acts, num, ax, j, log);
      FilledStep(g, acts, num, ax, j, a0, n0, b.aAction, b.nAction, ofst, o, log0, log);
      ofst := ofst[(ax[j].st, ax[j].isTkn) := o];
      j := j + 1;
    }
    a, n := b.aAction, b.nAction;
  }

  /** Insert the parts of all kept states. */
  method PackActions(g: Grammar, acts: ActionLists, auto: Autos, so: Sorting)
      returns (a: seq<Slot>, n: nat, ofst: Offsets, ghost ax: seq<Ax>, ghost log: seq<Stage>)
    requires Resorted(g, acts, auto, so) && 2 * |acts| < Pow2(LISTSIZE)
    requires forall s | 0 <= s < |acts| :: UniqueEmit(acts[s]) && Encodes(g, so.num, acts[s])
    ensures SortedAx(g, acts, so, ax) && Filled(g, acts, so.num, ax, a, n, ofst, log) && (|log| < |ax| ==> ax[|log|].nAction == 0)
    ensures forall q, isTkn | 0 <= q < so.nxstate && CountPart(g, acts[so.order[q]], isTkn) > 0 :: (so.order[q], isTkn) in ofst
  {
    var parts := SortedParts(g, acts, auto, so);
    SortedAxOK(g, acts, so, parts);
    ax := parts;
    a, n, ofst, log := FillTable(g, acts, so.num, parts);
    forall q, isTkn | 0 <= q < so.nxstate && CountPart(g, acts[so.order[q]], isTkn) > 0 ensures (so.order[q], isTkn) in ofst {
      PartReached(g, acts, so, parts, |log|, so.order[q], isTkn);
    }
  }

  /** Every action of the list has a number. */
  ghost predicate Encodes(g: Grammar, num: seq<nat>, ap: seq<Action>)
  {
    forall k | 0 <= k < |ap| && Emits(ap[k]) :: ComputeAction(num, |g.rules|, ap[k].kind) >= 0
  }

  lemma PartReached(g: Grammar, acts: ActionLists, so: Sorting, ax: seq<Ax>, i: nat, s: nat, isTkn: bool)
    requires SortedAx(g, acts, so, ax) && i <= |ax| && (i < |ax| ==> ax[i].nAction == 0)
    requires s < |acts| && HasPart(ax, s, isTkn) && CountPart(g, acts[s], isTkn) > 0
    ensures exists j :: 0 <= j < i && ax[j].st == s && ax[j].isTkn == isTkn
  {
    var j :| 0 <= j < |ax| && ax[j].st == s && ax[j].isTkn == isTkn;
    SortedAxOK(g, acts, so, ax);
    assert AxOK(g, acts, ax[j]);
  }

  // ---------------------------------------------------------------------------
  // The tables of the parser
  // ---------------------------------------------------------------------------

  datatype Packed = Packed(
    nstate: nat, nxstate: nat, nrule: nat,
    action: seq<Slot>, count: nat,
    shiftOfst: seq<int>, reduceOfst: seq<int>, reduceUseDflt: int,
    dflt: seq<int>)
  {
    function MaxShift(): int { nxstate - 1 }
    function MinShiftReduce(): int { nstate }
    function MaxShiftReduce(): int { nstate + nrule - 1 }
    function MinReduce(): int { nstate + nrule }
    function MaxReduce(): int { nstate + nrule * 2 - 1 }
  }

  /** How many entries an offset table needs: up to the last state that has an offset. */
  method OffsetCount(so: Sorting, ofst: Offsets, isTkn: bool) returns (n: nat)
    requires so.nxstate <= |so.order|
    ensures n <= so.nxstate && (n > 0 ==> (so.order[n - 1], isTkn) in ofst)
    ensures forall q | n <= q < so.nxstate :: (so.order[q], isTkn) !in ofst
  {
    n := so.nxstate;
    while n > 0 && (so.order[n - 1], isTkn) !in ofst
      invariant n <= so.nxstate && forall q | n <= q < so.nxstate :: (so.order[q], isTkn) !in ofst
    {
      n := n - 1;
    }
  }

  /** The offset table: states without an offset get `none`. */
  function OffsetTable(so: Sorting, ofst: Offsets, isTkn: bool, none: int, n: nat): seq<int>
    requires n <= |so.order|
  {
    seq(n, q requires 0 <= q < n => if (so.order[q], isTkn) in ofst then ofst[(so.order[q], isTkn)] else none)
  }

  ghost predicate IsLeast(so: Sorting, ofst: Offsets, mn: int)
    requires so.nxstate <= |so.order|
  {
    && mn <= 0 && (forall q | 0 <= q < so.nxstate && (so.order[q], false) in ofst :: mn <= ofst[(so.order[q], false)])
    && (mn == 0 || exists q :: 0 <= q < so.nxstate && (so.order[q], false) in ofst && mn == ofst[(so.order[q], false)])
  }

  /** The least of the nonterminal offsets and 0. */
  method LeastOffset(so: Sorting, ofst: Offsets) returns (mnNtOfst: int)
    requires so.nxstate <= |so.order|
    ensures IsLeast(so, ofst, mnNtOfst)
  {
    mnNtOfst := 0;
    var i := 0;
    while i < so.nxstate
      invariant 0 <= i <= so.nxstate
      invariant forall q | 0 <= q < i && (so.order[q], false) in ofst :: mnNtOfst <= ofst[(so.order[q], false)]
      invariant mnNtOfst <= 0 && (mnNtOfst == 0 || exists q :: 0 <= q < i && (so.order[q], false) in ofst && mnNtOfst == ofst[(so.order[q], false)])
    {
      var p := (so.order[i], false);
      if p in ofst && ofst[p] < mnNtOfst { mnNtOfst := ofst[p]; }
      i := i + 1;
    }
  }

  /** What the token half of state number `q` finds in the packed tables. */
  predicate ShiftRow(g: Grammar, num: seq<nat>, row: map<nat, Act>, pk: Packed, q: nat)
  {
    && pk.count <= |pk.action| && q < |pk.dflt| && pk.dflt[q] == DefaultCode(g, num, row)
    && (q < |pk.shiftOfst| ==>
          forall a: nat | a < g.nterminal :: Lookup(pk.action, pk.count, pk.shiftOfst[q], a) == if a in row then Some(Code(num, |g.rules|, row[a])) else None)
    && (q >= |pk.shiftOfst| ==> forall a: nat | a < g.nterminal :: a !in row)
  }

  /** What the nonterminal half of state number `q` finds. */
  predicate GotoRow(g: Grammar, num: seq<nat>, row: map<nat, Act>, pk: Packed, q: nat)
  {
    pk.count <= |pk.action| &&
    forall x: nat | g.IsNonterminal(x) && x in row ::
      && q < |pk.reduceOfst| && pk.reduceOfst[q] != pk.reduceUseDflt
      && Lookup(pk.action, pk.count, pk.reduceOfst[q], x) == Some(Code(num, |g.rules|, row[x]))
  }

  /** The packed tables say what the table says, for every kept state. */
  predicate Packs(g: Grammar, tab: Table, so: Sorting, pk: Packed)
  {
    && pk.nstate == |tab| == |so.num| && pk.nrule == |g.rules| && pk.nxstate == so.nxstate == |pk.dflt|
    && forall s: nat | s < |tab| :: RowPacked(g, tab, so, pk, s)
  }

  predicate RowPacked(g: Grammar, tab: Table, so: Sorting, pk: Packed, s: nat)
  {
    s < |tab| == |so.num| && (so.num[s] < so.nxstate ==> ShiftRow(g, so.num, tab[s], pk, so.num[s]) && GotoRow(g, so.num, tab[s], pk, so.num[s]))
  }

  /** A part at its offset. */
  lemma PartLookup(g: Grammar, num: seq<nat>, ap: seq<Action>, isTkn: bool, a: seq<Slot>, n: nat, o: int, x: nat)
    requires n <= |a| && UniqueEmit(ap) && InPart(g, isTkn, x) && ExactRow(a, n, o, ByLookahead(Trans(g, num, ap, isTkn)))
    ensures Lookup(a, n, o, x) == if x in RowOf(ap) then Some(Code(num, |g.rules|, RowOf(ap)[x])) else None
  {
    TransIsPart(g, num, ap, isTkn, x);
  }

  lemma ShiftRowOf(g: Grammar, acts: ActionLists, auto: Autos, so: Sorting, ofst: Offsets, pk: Packed, s: nat)
    requires Resorted(g, acts, auto, so) && s < |acts| && so.num[s] < so.nxstate && UniqueEmit(acts[s])
    requires Placed(g, acts, so.num, pk.action, pk.count, ofst, true) && (CountPart(g, acts[s], true) > 0 ==> (s, true) in ofst)
    requires so.num[s] < |pk.dflt| && pk.dflt[so.num[s]] == so.iDfltReduce[s] + |acts| + |g.rules|
    requires so.num[s] < |pk.shiftOfst| ==> pk.shiftOfst[so.num[s]] == if (s, true) in ofst then ofst[(s, true)] else pk.count
    requires so.num[s] >= |pk.shiftOfst| ==> (s, true) !in ofst
    ensures ShiftRow(g, so.num, RowOf(acts[s]), pk, so.num[s])
  {
    assert Counted(g, acts[s], so.num, so.nTknAct[s], so.nNtAct[s], so.iDfltReduce[s]);
    CountIsZero(g, acts[s], true);
    if (s, true) in ofst {
      assert PartPlaced(g, acts, so.num, pk.action, pk.count, (s, true), ofst[(s, true)], true);
      forall a: nat | a < g.nterminal
        ensures Lookup(pk.action, pk.count, ofst[(s, true)], a) == if a in RowOf(acts[s]) then Some(Code(so.num, |g.rules|, RowOf(acts[s])[a])) else None
      {
        PartLookup(g, so.num, acts[s], true, pk.action, pk.count, ofst[(s, true)], a);
      }
    }
  }

  lemma GotoRowOf(g: Grammar, acts: ActionLists, so: Sorting, ofst: Offsets, pk: Packed, s: nat)
    requires s < |acts| == |so.num| && UniqueEmit(acts[s])
    requires Placed(g, acts, so.num, pk.action, pk.count, ofst, true) && (CountPart(g, acts[s], false) > 0 ==> (s, false) in ofst)
    requires so.num[s] < |pk.reduceOfst| && (s, false) in ofst ==> pk.reduceOfst[so.num[s]] == ofst[(s, false)] > pk.reduceUseDflt
    requires so.num[s] >= |pk.reduceOfst| ==> (s, false) !in ofst
    ensures GotoRow(g, so.num, RowOf(acts[s]), pk, so.num[s])
  {
    CountIsZero(g, acts[s], false);
    forall x: nat | g.IsNonterminal(x) && x in RowOf(acts[s])
      ensures so.num[s] < |pk.reduceOfst| && pk.reduceOfst[so.num[s]] != pk.reduceUseDflt
      ensures Lookup(pk.action, pk.count, pk.reduceOfst[so.num[s]], x) == Some(Code(so.num, |g.rules|, RowOf(acts[s])[x]))
    {
      assert InPart(g, false, x);
      assert PartPlaced(g, acts, so.num, pk.action, pk.count, (s, false), ofst[(s, false)], true);
      PartLookup(g, so.num, acts[s], false, pk.action, pk.count, ofst[(s, false)], x);
    }
  }

  /** What is written out for state number `q`. */
  ghost predicate EntryWritten(g: Grammar, nstate: nat, so: Sorting, ofst: Offsets, pk: Packed, q: nat)
  {
    && q < |so.order| && so.order[q] < |so.iDfltReduce| && q < |pk.dflt| && pk.dflt[q] == so.iDfltReduce[so.order[q]] + nstate + |g.rules|
    && (q < |pk.shiftOfst| ==> pk.shiftOfst[q] == if (so.order[q], true) in ofst then ofst[(so.order[q], true)] else pk.count)
    && (q >= |pk.shiftOfst| ==> (so.order[q], true) !in ofst)
    && (q < |pk.reduceOfst| ==> if (so.order[q], false) in ofst then pk.reduceOfst[q] == ofst[(so.order[q], false)] > pk.reduceUseDflt else pk.reduceOfst[q] == pk.reduceUseDflt)
    && (q >= |pk.reduceOfst| ==> (so.order[q], false) !in ofst)
  }

  /** The tables are what is written out for the action table and the offsets: each offset table ends with the last state that has an offset. */
  ghost predicate Written(g: Grammar, nstate: nat, so: Sorting, ofst: Offsets, pk: Packed)
  {
    && pk.nstate == nstate && pk.nxstate == so.nxstate == |pk.dflt| <= |so.order| && pk.nrule == |g.rules|
    && (forall q: nat | q < so.nxstate :: EntryWritten(g, nstate, so, ofst, pk, q))
    && IsLeast(so, ofst, pk.reduceUseDflt + 1)
    && |pk.shiftOfst| <= so.nxstate && (pk.shiftOfst != [] ==> (so.order[|pk.shiftOfst| - 1], true) in ofst)
    && |pk.reduceOfst| <= so.nxstate && (pk.reduceOfst != [] ==> (so.order[|pk.reduceOfst| - 1], false) in ofst)
  }

  /** Write out the offsets and defaults of the kept states. */
  method WriteOffsets(g: Grammar, nstate: nat, so: Sorting, ofst: Offsets, a: seq<Slot>, n: nat) returns (pk: Packed)
    requires 0 < so.nxstate <= |so.order| && forall q | 0 <= q < |so.order| :: so.order[q] < |so.iDfltReduce|
    ensures Written(g, nstate, so, ofst, pk) && pk.action == a && pk.count == n
  {
    var mnNtOfst := LeastOffset(so, ofst);
    var nShift := OffsetCount(so, ofst, true);
    var nReduce := OffsetCount(so, ofst, false);
    var dflt := seq(so.nxstate, q requires 0 <= q < so.nxstate => so.iDfltReduce[so.order[q]] + nstate + |g.rules|);
    pk := Packed(nstate, so.nxstate, |g.rules|, a, n,
                 OffsetTable(so, ofst, true, n, nShift), OffsetTable(so, ofst, false, mnNtOfst - 1, nReduce), mnNtOfst - 1, dflt);
  }

  lemma RowIsPacked(g: Grammar, acts: ActionLists, auto: Autos, so: Sorting, ofst: Offsets, pk: Packed, s: nat)
    requires Resorted(g, acts, auto, so) && s < |acts| && UniqueEmit(acts[s]) && Placed(g, acts, so.num, pk.action, pk.count, ofst, true)
    requires so.num[s] < so.nxstate ==> EntryWritten(g, |acts|, so, ofst, pk, so.num[s])
    requires so.num[s] < so.nxstate && CountPart(g, acts[s], true) > 0 ==> (s, true) in ofst
    requires so.num[s] < so.nxstate && CountPart(g, acts[s], false) > 0 ==> (s, false) in ofst
    ensures RowPacked(g, TableOf(acts), so, pk, s)
  {
    if so.num[s] < so.nxstate {
      assert so.order[so.num[s]] == s;
      assert ShiftRow(g, so.num, RowOf(acts[s]), pk, so.num[s]) by { ShiftRowOf(g, acts, auto, so, ofst, pk, s); }
      assert GotoRow(g, so.num, RowOf(acts[s]), pk, so.num[s]) by { GotoRowOf(g, acts, so, ofst, pk, s); }
    }
  }

  /** How the tables came about: the sorted parts, the stages of the action table, and what was written out. */
  ghost predicate PackedBy(g: Grammar, acts: ActionLists, so: Sorting, ax: seq<Ax>, log: seq<Stage>, pk: Packed)
  {
    && SortedAx(g, acts, so, ax) && Logged(g, acts, so.num, ax, log, pk.action, pk.count) && (|log| < |ax| ==> ax[|log|].nAction == 0)
    && Written(g, |acts|, so, OffsetsOf(ax, log), pk)
  }

  /**
   Write out the tables of the parser.  They say what the table of the generator says if
   there was room for every row.  The offset table for tokens covers all kept states
   exactly if the last of them has an action on a token.
   */
  method PackTables(g: Grammar, acts: ActionLists, auto: Autos, so: Sorting) returns (pk: Packed, ghost ax: seq<Ax>, ghost log: seq<Stage>)
    requires Resorted(g, acts, auto, so) && 2 * |acts| < Pow2(LISTSIZE)
    requires forall s | 0 <= s < |acts| :: UniqueEmit(acts[s]) && Encodes(g, so.num, acts[s])
    ensures PackedBy(g, acts, so, ax, log, pk) && (Clean(log) ==> Packs(g, TableOf(acts), so, pk))
    ensures |pk.shiftOfst| == so.nxstate <==> CountPart(g, acts[so.order[so.nxstate - 1]], true) > 0
  {
    var a, n, ofst;
    a, n, ofst, ax, log := PackActions(g, acts, auto, so);
    pk := WriteOffsets(g, |acts|, so, ofst, a, n);
    if Clean(log) {
      forall s: nat | s < |acts| ensures RowPacked(g, TableOf(acts), so, pk, s) {
        assert so.order[so.num[s]] == s;
        RowIsPacked(g, acts, auto, so, ofst, pk, s);
      }
    }
    CoversExactly(g, acts, so, ofst, pk, Clean(log));
  }

  lemma CoversExactly(g: Grammar, acts: ActionLists, so: Sorting, ofst: Offsets, pk: Packed, clean: bool)
    requires Written(g, |acts|, so, ofst, pk) && so.nxstate > 0 && so.order[so.nxstate - 1] < |acts| && Placed(g, acts, so.num, pk.action, pk.count, ofst, clean)
    requires CountPart(g, acts[so.order[so.nxstate - 1]], true) > 0 ==> (so.order[so.nxstate - 1], true) in ofst
    ensures |pk.shiftOfst| == so.nxstate <==> CountPart(g, acts[so.order[so.nxstate - 1]], true) > 0
  {
    var last := (so.order[so.nxstate - 1], true);
    assert EntryWritten(g, |acts|, so, ofst, pk, so.nxstate - 1);
    assert last in ofst ==> PartPlaced(g, acts, so.num, pk.action, pk.count, last, ofst[last], clean);
  }
}
