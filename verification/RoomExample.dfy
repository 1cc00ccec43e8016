/**
 An action table that fills up: twelve transactions with the same lookahead take the first
 twelve slots, and for a thirteenth one there is no room although more than half of what
 is left is free.
 */
module RoomExample {
  import opened Options
  import opened ActTab

  /** The table after `k` transactions of one action on lookahead 0. */
  function Filled(k: nat): seq<Slot>
  {
    if k == 0 then [] else seq(21, i => if i < k then Slot(0, i) else FREE)
  }

  lemma GrownFilled(k: nat)
    requires k < 12
    ensures Grown(Filled(k), k, 0) == seq(21, i => if i < k then Slot(0, i) else FREE)
  {
  }

  /** The next transaction goes to the first free slot. */
  lemma NextSlot(k: nat, t: seq<Slot>, b: seq<Slot>, n: nat, ofst: int)
    requires k < 12 && t == [Slot(0, k)] && IsPlaced(Filled(k), k, t, 0, 0, b, n, ofst)
    ensures b == Filled(k + 1) && n == k + 1
  {
    var a := Grown(Filled(k), k, 0);
    GrownFilled(k);
    assert t[..0] == [] && ByLookahead(t) == map[0 := k];
    forall e | 0 <= e < k ensures !ExactRow(a, k, e, ByLookahead(t)) { assert Lookup(a, k, e, 0) != Some(k); }
    var d :| IsDuplicate(a, k, t, 0, d) && d < k && (d >= 0 ==> ofst == d) && (d < 0 ==> IsHole(a, k, t, 0, 0, ofst));
    assert Fits(a, k, t, 0, k);
    assert ofst == k;
    assert WriteAll(a, t, k) == a[k := Slot(0, k)] == Filled(k + 1);
    assert CountAfter(k, t[..0], k) == k && CountAfter(k, t, k) == k + 1;
  }

  /** In that table a transaction with lookahead 5 has no room; where the search ends, another row would be hit. */
  lemma NoRoom(a: seq<Slot>, t: seq<Slot>)
    requires a == Filled(12) && t == [Slot(5, 99)]
    ensures SlotsOK(a, 12) && TransOK(t, 5, 99, 5) && Grown(a, 12, 5) == a
    ensures !HasRoom(a, 12, t, ByLookahead(t), 5, 5)
    ensures Lookup(a, 12, |a| - 5 - 5, 0) == Some(11)
  {
    assert t[0] == Slot(5, 99) && t[..0] == [];
    assert ByLookahead(t) == map[5 := 99];
    forall ofst ensures !ExactRow(a, 12, ofst, ByLookahead(t)) {
      assert Lookup(a, 12, ofst, 5) == None;
    }
    forall i: nat | i < |a| - 5 ensures !Fits(a, 12, t, 5, i) {
      if i >= 12 { assert a[i - 5].lookahead == (i - 5) + 5 - i; }
    }
    assert Lookup(a, 12, 11, 0) == Some(11);
  }

  /** The thirteenth transaction goes past the scan. */
  lemma ThirteenthSlot(a: seq<Slot>, t: seq<Slot>, b: seq<Slot>, n: nat, ofst: int)
    requires a == Filled(12) && t == [Slot(5, 99)] && IsPlaced(a, 12, t, 5, 5, b, n, ofst)
    ensures ofst == 11
  {
    NoRoom(a, t);
    var d :| IsDuplicate(a, 12, t, 5, d) && d < 12 && (d >= 0 ==> ofst + 5 == d) && (d < 0 ==> IsHole(a, 12, t, 5, 5, ofst + 5));
  }

  /**
   Thirteen insertions into the empty table, and the last one has no room: at the offset
   that it gets, lookahead 0, which the transaction does not have, finds the action of the
   twelfth one.
   */
  method RoomRunsOut() returns (b: Builder, ofst: int)
    ensures fresh(b) && b.Valid() && ofst == 11
    ensures Lookup(b.aAction, b.nAction, ofst, 5) == Some(99) && Lookup(b.aAction, b.nAction, ofst, 0) == Some(11)
  {
    b := FillUp();
    NoRoom(b.aAction, b.aLookahead);
    ghost var a, t := b.aAction, b.aLookahead;
    OnlyAction(t, 5, 99, b.mnLookahead, b.mnAction, b.mxLookahead);
    assert t[..0] == [] && ByLookahead(t) == map[5 := 99];
    ofst := b.Insert();
    ThirteenthSlot(a, t, b.aAction, b.nAction, ofst);
  }

  /** A sequence of insertions into the empty table after which there is no room for the next one. */
  method FillUp() returns (b: Builder)
    ensures fresh(b) && b.Valid() && b.aLookahead == [Slot(5, 99)] && b.aAction == Filled(12) && b.nAction == 12 && !b.Roomy()
  {
    b := new Builder();
    var k := 0;
    while k < 12
      invariant 0 <= k <= 12 && fresh(b) && b.Valid() && b.aLookahead == [] && b.nAction == k && b.aAction == Filled(k)
    {
      b.AddAction(0, k);
      OnlyAction(b.aLookahead, 0, k, b.mnLookahead, b.mnAction, b.mxLookahead);
      ghost var t := b.aLookahead;
      var ofst := b.Insert();
      NextSlot(k, t, b.aAction, b.nAction, ofst);
      k := k + 1;
    }
    b.AddAction(5, 99);
    OnlyAction(b.aLookahead, 5, 99, b.mnLookahead, b.mnAction, b.mxLookahead);
    NoRoom(b.aAction, b.aLookahead);
  }

  lemma OnlyAction(t: seq<Slot>, lookahead: nat, action: int, mn: int, mnAction: int, mx: int)
    requires t == [Slot(lookahead, action)] && TransOK(t, mn, mnAction, mx)
    ensures mn == mx == lookahead && mnAction == action
  {
    assert t[0] == Slot(lookahead, action);
  }
}
