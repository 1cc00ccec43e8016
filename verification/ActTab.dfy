/**
 The packed action table.  `ActTab` holds the `yy_action` and `yy_lookahead` tables
 under construction; a row of the parser table is inserted at an offset where it can
 share slots with the rows already there.  The contract of `Insert` says what every
 lookup, at every offset, finds afterwards.
 */
module ActTab {
  import opened FiniteSets
  import opened Options

  /** One slot of the table, or one action of a transaction.  A free slot has lookahead -1. */
  datatype Slot = Slot(lookahead: int, action: int)

  const FREE := Slot(-1, -1)

  /** What the parser finds at offset `ofst` for symbol `la` in the first `n` slots. */
  function Lookup(a: seq<Slot>, n: nat, ofst: int, la: nat): Option<int>
    requires n <= |a|
  {
    if 0 <= ofst + la < n && a[ofst + la].lookahead == la then Some(a[ofst + la].action) else None
  }

  /** The first `n` slots are in use, up to the last of them; the others are free. */
  ghost predicate SlotsOK(a: seq<Slot>, n: nat)
  {
    && n <= |a|
    && (forall k | 0 <= k < |a| :: a[k].lookahead >= -1)
    && (forall k | n <= k < |a| :: a[k] == FREE)
    && (n > 0 ==> a[n - 1].lookahead >= 0)
  }

  // ---------------------------------------------------------------------------
  // Transactions
  // ---------------------------------------------------------------------------

  ghost predicate DistinctTrans(t: seq<Slot>)
  {
    && (forall j | 0 <= j < |t| :: t[j].lookahead >= 0)
    && forall i, j | 0 <= i < j < |t| :: t[i].lookahead != t[j].lookahead
  }

  /** The actions of a transaction by lookahead. */
  ghost function ByLookahead(t: seq<Slot>): map<int, int>
  {
    if t == [] then map[] else ByLookahead(t[..|t| - 1])[t[|t| - 1].lookahead := t[|t| - 1].action]
  }

  ghost predicate Holds(t: seq<Slot>, m: map<int, int>)
  {
    && (forall j | 0 <= j < |t| :: t[j].lookahead in m && m[t[j].lookahead] == t[j].action)
    && (forall la | la in m :: Slot(la, m[la]) in t)
  }

  lemma {:induction false} LookaheadHolds(t: seq<Slot>)
    requires DistinctTrans(t)
    ensures Holds(t, ByLookahead(t))
  {
    if t != [] {
      var t' := t[..|t| - 1];
      LookaheadHolds(t');
      var x := t[|t| - 1];
      forall la | la in ByLookahead(t) ensures Slot(la, ByLookahead(t)[la]) in t {
        if la != x.lookahead { assert Slot(la, ByLookahead(t')[la]) in t'; }
      }
      forall j | 0 <= j < |t| ensures t[j].lookahead in ByLookahead(t) && ByLookahead(t)[t[j].lookahead] == t[j].action {
        if j < |t| - 1 { assert t'[j] == t[j]; }
      }
    }
  }

  ghost predicate IsMin(t: seq<Slot>, mn: int, mnAction: int)
  {
    Slot(mn, mnAction) in t && forall j | 0 <= j < |t| :: mn <= t[j].lookahead
  }

  ghost predicate IsMax(t: seq<Slot>, mx: int)
  {
    (exists j :: 0 <= j < |t| && t[j].lookahead == mx) && forall j | 0 <= j < |t| :: t[j].lookahead <= mx
  }

  /** A row holds the actions of the transaction and nothing else. */
  ghost predicate ExactRow(a: seq<Slot>, n: nat, ofst: int, t: map<int, int>)
    requires n <= |a|
  {
    forall la: nat :: Lookup(a, n, ofst, la) == if la in t then Some(t[la]) else None
  }

  ghost predicate EmptyRow(a: seq<Slot>, n: nat, ofst: int)
    requires n <= |a|
  {
    forall la: nat :: Lookup(a, n, ofst, la) == None
  }

  // ---------------------------------------------------------------------------
  // The search for a duplicate
  // ---------------------------------------------------------------------------

  /** The positions of the first `n` slots that offset `ofst` would find. */
  ghost function Aligned(a: seq<Slot>, n: nat, ofst: int): set<int>
    requires n <= |a|
  {
    set j | 0 <= j < n && a[j].lookahead >= 0 && a[j].lookahead == j - ofst
  }

  ghost predicate AllMatch(a: seq<Slot>, n: nat, ofst: int, t: seq<Slot>)
    requires n <= |a|
  {
    forall j | 0 <= j < |t| :: 0 <= t[j].lookahead + ofst < n && a[t[j].lookahead + ofst] == t[j]
  }

  ghost function Positions(t: seq<Slot>, ofst: int): set<int>
  {
    set j | 0 <= j < |t| :: t[j].lookahead + ofst
  }

  lemma PositionsSplit(t: seq<Slot>, ofst: int)
    requires t != []
    ensures Positions(t, ofst) == Positions(t[..|t| - 1], ofst) + {t[|t| - 1].lookahead + ofst}
  {
    var t' := t[..|t| - 1];
    forall p | p in Positions(t, ofst) ensures p in Positions(t', ofst) + {t[|t| - 1].lookahead + ofst} {
      var j :| 0 <= j < |t| && p == t[j].lookahead + ofst;
      if j < |t| - 1 { assert t'[j] == t[j]; }
    }
    forall p | p in Positions(t', ofst) ensures p in Positions(t, ofst) {
      var j :| 0 <= j < |t'| && p == t'[j].lookahead + ofst;
      assert t[j] == t'[j];
    }
  }

  lemma {:induction false} PositionsCount(t: seq<Slot>, ofst: int)
    requires DistinctTrans(t)
    ensures |Positions(t, ofst)| == |t|
  {
    if t != [] {
      var t' := t[..|t| - 1];
      PositionsCount(t', ofst);
      PositionsSplit(t, ofst);
    }
  }

  /** Matching everywhere and aligned nowhere else is being the same row. */
  lemma DuplicateIsExact(a: seq<Slot>, n: nat, ofst: int, t: seq<Slot>, m: map<int, int>)
    requires n <= |a| && DistinctTrans(t) && Holds(t, m)
    ensures AllMatch(a, n, ofst, t) && |Aligned(a, n, ofst)| == |t| <==> ExactRow(a, n, ofst, m)
  {
    PositionsCount(t, ofst);
    if AllMatch(a, n, ofst, t) {
      assert Positions(t, ofst) <= Aligned(a, n, ofst);
      SmallerSet(Positions(t, ofst), Aligned(a, n, ofst));
      if |Aligned(a, n, ofst)| == |t| { MatchIsExact(a, n, ofst, t, m); }
    }
    if ExactRow(a, n, ofst, m) { ExactMatches(a, n, ofst, t, m); }
  }

  lemma MatchIsExact(a: seq<Slot>, n: nat, ofst: int, t: seq<Slot>, m: map<int, int>)
    requires n <= |a| && Holds(t, m) && AllMatch(a, n, ofst, t) && Aligned(a, n, ofst) == Positions(t, ofst)
    ensures ExactRow(a, n, ofst, m)
  {
    forall la: nat ensures Lookup(a, n, ofst, la) == if la in m then Some(m[la]) else None {
      if Lookup(a, n, ofst, la).Some? {
        assert ofst + la in Positions(t, ofst);
      }
    }
  }

  lemma ExactMatches(a: seq<Slot>, n: nat, ofst: int, t: seq<Slot>, m: map<int, int>)
    requires n <= |a| && DistinctTrans(t) && Holds(t, m) && ExactRow(a, n, ofst, m)
    ensures AllMatch(a, n, ofst, t) && Aligned(a, n, ofst) == Positions(t, ofst)
  {
    forall j | 0 <= j < |t| ensures 0 <= t[j].lookahead + ofst < n && a[t[j].lookahead + ofst] == t[j] {
      assert Lookup(a, n, ofst, t[j].lookahead) == Some(t[j].action);
    }
    forall p | p in Aligned(a, n, ofst) ensures p in Positions(t, ofst) {
      assert Lookup(a, n, ofst, p - ofst).Some?;
    }
  }

  /** Do all actions of the transaction match at offset `ofst`? */
  method Matches(a: seq<Slot>, n: nat, ofst: int, t: seq<Slot>) returns (all: bool)
    requires n <= |a|
    ensures all <==> AllMatch(a, n, ofst, t)
  {
    var j := 0;
    while j < |t|
      invariant 0 <= j <= |t|
      invariant forall i | 0 <= i < j :: 0 <= t[i].lookahead + ofst < n && a[t[i].lookahead + ofst] == t[i]
    {
      var k := t[j].lookahead + ofst;
      if k < 0 || k >= n { return false; }
      if t[j].lookahead != a[k].lookahead { return false; }
      if t[j].action != a[k].action { return false; }
      j := j + 1;
    }
    return true;
  }

  method CountAligned(a: seq<Slot>, n: nat, ofst: int) returns (c: nat)
    requires n <= |a|
    ensures c == |Aligned(a, n, ofst)|
  {
    c := 0;
    var j := 0;
    while j < n
      invariant 0 <= j <= n && c == |Aligned(a, j, ofst)|
    {
      if a[j].lookahead >= 0 && a[j].lookahead == j - ofst {
        assert Aligned(a, j + 1, ofst) == Aligned(a, j, ofst) + {j};
        c := c + 1;
      } else {
        assert Aligned(a, j + 1, ofst) == Aligned(a, j, ofst);
      }
      j := j + 1;
    }
  }

  /** Index `i` has the smallest lookahead of a row that holds the transaction and nothing else; -1 if there is no such row. */
  ghost predicate IsDuplicate(a: seq<Slot>, n: nat, t: seq<Slot>, mn: int, i: int)
    requires n <= |a|
  {
    if i >= 0 then ExactRow(a, n, i - mn, ByLookahead(t)) else forall ofst :: !ExactRow(a, n, ofst, ByLookahead(t))
  }

  /** The last index at which the transaction is already in the table, or -1. */
  method FindDuplicate(a: seq<Slot>, n: nat, t: seq<Slot>, mn: int, mnAction: int) returns (i: int)
    requires n <= |a| && DistinctTrans(t) && IsMin(t, mn, mnAction)
    ensures -1 <= i < n && IsDuplicate(a, n, t, mn, i)
  {
    ghost var m := ByLookahead(t);
    LookaheadHolds(t);
    i := n - 1;
    ghost var j0 :| 0 <= j0 < |t| && t[j0] == Slot(mn, mnAction);
    while i >= 0
      invariant -1 <= i < n
      invariant forall ofst | i - mn < ofst < n - mn :: !ExactRow(a, n, ofst, m)
    {
      DuplicateIsExact(a, n, i - mn, t, m);
      if a[i].lookahead == mn && a[i].action == mnAction {
        var all := Matches(a, n, i - mn, t);
        if all {
          var c := CountAligned(a, n, i - mn);
          if c == |t| { return i; }
        }
      } else {
        assert a[i] != t[j0] && t[j0].lookahead + (i - mn) == i;
      }
      i := i - 1;
    }
    NoDuplicate(a, n, t, mn, m, j0);
  }

  lemma NoDuplicate(a: seq<Slot>, n: nat, t: seq<Slot>, mn: int, m: map<int, int>, j0: nat)
    requires n <= |a| && DistinctTrans(t) && Holds(t, m) && j0 < |t| && t[j0].lookahead == mn
    requires forall ofst | -1 - mn < ofst < n - mn :: !ExactRow(a, n, ofst, m)
    ensures forall ofst :: !ExactRow(a, n, ofst, m)
  {
    forall ofst ensures !ExactRow(a, n, ofst, m) {
      DuplicateIsExact(a, n, ofst, t, m);
      assert AllMatch(a, n, ofst, t) ==> 0 <= t[j0].lookahead + ofst < n;
    }
  }

  // ---------------------------------------------------------------------------
  // The search for a hole
  // ---------------------------------------------------------------------------

  /** Index `i` can take the smallest lookahead: all slots are free, and no slot in use is aligned with it. */
  ghost predicate Fits(a: seq<Slot>, n: nat, t: seq<Slot>, mn: int, i: int)
    requires n <= |a|
  {
    && 0 <= i < |a| && a[i].lookahead < 0
    && (forall j | 0 <= j < |t| :: 0 <= t[j].lookahead - mn + i < |a| && a[t[j].lookahead - mn + i].lookahead < 0)
    && (forall j | 0 <= j < n :: a[j].lookahead != j + mn - i)
  }

  method FitsAt(a: seq<Slot>, n: nat, t: seq<Slot>, mn: int, i: nat) returns (fits: bool)
    requires n <= |a| && i < |a| && forall j | 0 <= j < |t| :: 0 <= t[j].lookahead - mn + i < |a|
    ensures fits <==> Fits(a, n, t, mn, i)
  {
    if a[i].lookahead >= 0 { return false; }
    var j := 0;
    while j < |t|
      invariant 0 <= j <= |t| && forall l | 0 <= l < j :: a[t[l].lookahead - mn + i].lookahead < 0
    {
      if a[t[j].lookahead - mn + i].lookahead >= 0 { return false; }
      j := j + 1;
    }
    j := 0;
    while j < n
      invariant 0 <= j <= n && forall l | 0 <= l < j :: a[l].lookahead != l + mn - i
    {
      if a[j].lookahead == j + mn - i { return false; }
      j := j + 1;
    }
    return true;
  }

  /** The first index at which the transaction fits, or the end of the search if there is none. */
  ghost predicate IsHole(a: seq<Slot>, n: nat, t: seq<Slot>, mn: int, mx: int, i: nat)
    requires n <= |a|
  {
    i <= |a| - mx && (i < |a| - mx ==> Fits(a, n, t, mn, i)) && forall k: nat | k < i :: !Fits(a, n, t, mn, k)
  }

  /** The first index that fits, or the first one past the scan. */
  method FindHole(a: seq<Slot>, n: nat, t: seq<Slot>, mn: int, mx: int) returns (i: nat)
    requires SlotsOK(a, n) && 0 <= mn <= mx <= |a| && forall j | 0 <= j < |t| :: mn <= t[j].lookahead <= mx
    ensures IsHole(a, n, t, mn, mx, i)
  {
    i := 0;
    while i < |a| - mx
      invariant i <= |a| - mx && forall k: nat | k < i :: !Fits(a, n, t, mn, k)
    {
      var fits := FitsAt(a, n, t, mn, i);
      if fits { return; }
      i := i + 1;
    }
  }

  /** What fits finds an empty row. */
  lemma FitsIsEmpty(a: seq<Slot>, n: nat, t: seq<Slot>, mn: int, i: int)
    requires n <= |a| && Fits(a, n, t, mn, i)
    ensures EmptyRow(a, n, i - mn)
  {
  }

  /** Far enough past the slots in use, everything fits. */
  lemma FarFits(a: seq<Slot>, n: nat, t: seq<Slot>, mn: int, mx: int)
    requires SlotsOK(a, n) && 0 <= mn <= mx && (forall j | 0 <= j < |t| :: mn <= t[j].lookahead <= mx) && n + mn + mx < |a|
    ensures Fits(a, n, t, mn, n + mn)
  {
  }

  // ---------------------------------------------------------------------------
  // Insertion
  // ---------------------------------------------------------------------------

  /** The table after the worst case has been allocated for. */
  function Grown(a: seq<Slot>, n: nat, mx: nat): (r: seq<Slot>)
    ensures a <= r && n + mx + 1 < |r| && forall k | |a| <= k < |r| :: r[k] == FREE
  {
    if n + (mx + 1) >= |a| then a + seq(n + (mx + 1) + 20, _ => FREE) else a
  }

  /**
   There is an offset for the transaction: one with exactly its row, or one the scan for
   holes reaches, or the one past the scan if no slot in use is aligned with it.
   */
  ghost predicate HasRoom(a: seq<Slot>, n: nat, t: seq<Slot>, m: map<int, int>, mn: int, mx: int)
    requires n <= |a|
  {
    || (exists ofst :: ExactRow(a, n, ofst, m))
    || (exists i: nat :: i < |a| - mx && Fits(a, n, t, mn, i))
    || EmptyRow(a, n, |a| - mx - mn)
  }

  /** A transaction with a small lookahead, or a table with enough free slots, always has room. */
  lemma RoomEnough(a: seq<Slot>, n: nat, t: seq<Slot>, m: map<int, int>, mn: int, mx: int)
    requires SlotsOK(a, n) && 0 <= mn <= mx && (forall j | 0 <= j < |t| :: mn <= t[j].lookahead <= mx)
    requires n + mx + 1 < |a| && (mn <= 1 || n + mn + mx < |a|)
    ensures HasRoom(a, n, t, m, mn, mx)
  {
    FarFits(a, n, t, mn, mx);
    assert (n + mn) as nat < |a| - mx;
  }

  /** All slots that the transaction needs are free or already hold its actions. */
  ghost predicate CanWrite(a: seq<Slot>, m: map<int, int>, ofst: int)
  {
    forall la | la in m :: 0 <= la + ofst < |a| && (a[la + ofst].lookahead < 0 || a[la + ofst] == Slot(la, m[la]))
  }

  /** `b` is `a` with the actions `m` written at offset `ofst`. */
  ghost predicate Written(a: seq<Slot>, b: seq<Slot>, m: map<int, int>, ofst: int)
  {
    |a| == |b| && forall k | 0 <= k < |b| :: b[k] == if k - ofst in m then Slot(k - ofst, m[k - ofst]) else a[k]
  }

  /** What every lookup finds after `m` has been written at `ofst`. */
  ghost predicate Updated(a: seq<Slot>, n: nat, b: seq<Slot>, n': nat, ofst: int, m: map<int, int>)
    requires n <= |a| && n' <= |b|
  {
    forall o: int, la: nat :: Lookup(b, n', o, la) == if o == ofst && la in m then Some(m[la]) else Lookup(a, n, o, la)
  }

  lemma LookupUpdated(a: seq<Slot>, n: nat, b: seq<Slot>, n': nat, m: map<int, int>, ofst: int, o: int, la: nat)
    requires SlotsOK(a, n) && CanWrite(a, m, ofst) && Written(a, b, m, ofst)
    requires n <= n' <= |b| && forall x | x in m :: x + ofst < n'
    ensures Lookup(b, n', o, la) == if o == ofst && la in m then Some(m[la]) else Lookup(a, n, o, la)
  {
    if 0 <= o + la < |b| && o + la - ofst in m {
      assert b[o + la].lookahead == o + la - ofst;
      assert a[(o + la - ofst) + ofst].lookahead < 0 || a[o + la] == b[o + la];
    }
  }

  ghost predicate WriteInv(a: seq<Slot>, n: nat, b: seq<Slot>, n': nat, m: map<int, int>, ofst: int)
  {
    SlotsOK(b, n') && n <= n' && Written(a, b, m, ofst) && forall la | la in m :: la + ofst < n'
  }

  lemma WriteStep(a: seq<Slot>, n: nat, b: seq<Slot>, n': nat, m: map<int, int>, ofst: int, la: nat, action: int)
    requires WriteInv(a, n, b, n', m, ofst) && 0 <= la + ofst < |a|
    ensures WriteInv(a, n, b[la + ofst := Slot(la, action)], if la + ofst >= n' then la + ofst + 1 else n', m[la := action], ofst)
  {
  }

  lemma AllUpdated(a: seq<Slot>, n: nat, b: seq<Slot>, n': nat, m: map<int, int>, ofst: int)
    requires SlotsOK(a, n) && CanWrite(a, m, ofst) && WriteInv(a, n, b, n', m, ofst)
    ensures Updated(a, n, b, n', ofst, m)
  {
    forall o: int, la: nat ensures Lookup(b, n', o, la) == if o == ofst && la in m then Some(m[la]) else Lookup(a, n, o, la) {
      LookupUpdated(a, n, b, n', m, ofst, o, la);
    }
  }

  /** Write the transaction at `ofst`. */
  method Write(a: seq<Slot>, n: nat, t: seq<Slot>, ofst: int) returns (b: seq<Slot>, n': nat)
    requires SlotsOK(a, n) && DistinctTrans(t) && CanWrite(a, ByLookahead(t), ofst)
    ensures SlotsOK(b, n') && Updated(a, n, b, n', ofst, ByLookahead(t))
    ensures b == WriteAll(a, t, ofst) && n' == CountAfter(n, t, ofst)
  {
    b, n' := a, n;
    var j := 0;
    while j < |t|
      invariant 0 <= j <= |t| && WriteInv(a, n, b, n', ByLookahead(t[..j]), ofst)
      invariant b == WriteAll(a, t[..j], ofst) && n' == CountAfter(n, t[..j], ofst)
    {
      assert 0 <= t[j].lookahead + ofst < |a| by { LookaheadHolds(t); }
      WriteAllStep(a, n, t, ofst, j);
      b, n' := WriteOne(a, n, t, ofst, j, b, n');
      j := j + 1;
    }
    assert t[..j] == t;
    AllUpdated(a, n, b, n', ByLookahead(t), ofst);
  }

  /** Write action `j` of the transaction. */
  method WriteOne(ghost a: seq<Slot>, ghost n: nat, t: seq<Slot>, ofst: int, j: nat, b: seq<Slot>, m: nat) returns (b': seq<Slot>, m': nat)
    requires n <= |a| && DistinctTrans(t) && j < |t| && 0 <= t[j].lookahead + ofst < |a| && WriteInv(a, n, b, m, ByLookahead(t[..j]), ofst)
    requires CanWrite(a, ByLookahead(t), ofst)
    ensures WriteInv(a, n, b', m', ByLookahead(t[..j + 1]), ofst)
    ensures b' == b[t[j].lookahead + ofst := t[j]] && m' == if t[j].lookahead + ofst >= m then t[j].lookahead + ofst + 1 else m
  {
    assert t[..j + 1][..j] == t[..j];
    LookaheadHolds(t);
    WriteStep(a, n, b, m, ByLookahead(t[..j]), ofst, t[j].lookahead, t[j].action);
    var k := t[j].lookahead + ofst;
    b', m' := b[k := t[j]], m;
    if k >= m { m' := k + 1; }
  }

  lemma WriteAllStep(a: seq<Slot>, n: nat, t: seq<Slot>, ofst: int, j: nat)
    requires j < |t| && 0 <= t[j].lookahead + ofst < |a|
    ensures WriteAll(a, t[..j + 1], ofst) == WriteAll(a, t[..j], ofst)[t[j].lookahead + ofst := t[j]]
    ensures var m := CountAfter(n, t[..j], ofst); CountAfter(n, t[..j + 1], ofst) == if t[j].lookahead + ofst >= m then t[j].lookahead + ofst + 1 else m
  {
    assert t[..j + 1][..j] == t[..j];
  }

  /** The slots after all actions of the transaction are written. */
  function WriteAll(a: seq<Slot>, t: seq<Slot>, ofst: int): (b: seq<Slot>)
    ensures |b| == |a|
  {
    if t == [] then a
    else
      var b, last := WriteAll(a, t[..|t| - 1], ofst), t[|t| - 1];
      if 0 <= last.lookahead + ofst < |a| then b[last.lookahead + ofst := last] else b
  }

  /** The number of slots in use after that. */
  function CountAfter(n: nat, t: seq<Slot>, ofst: int): nat
  {
    if t == [] then n
    else
      var m, k := CountAfter(n, t[..|t| - 1], ofst), t[|t| - 1].lookahead + ofst;
      if k >= m then k + 1 else m
  }

  ghost predicate TransOK(t: seq<Slot>, mn: int, mnAction: int, mx: int)
  {
    DistinctTrans(t) && (t != [] ==> IsMin(t, mn, mnAction) && IsMax(t, mx))
  }

  /** The transaction can be written at the offset, and disturbs no other row there exactly if there is room at all. */
  ghost predicate GoodChoice(a: seq<Slot>, n: nat, t: seq<Slot>, m: map<int, int>, mn: int, mx: int, ofst: int)
    requires n <= |a|
  {
    CanWrite(a, m, ofst) && (HasRoom(a, n, t, m, mn, mx) <==> EmptyRow(a, n, ofst) || ExactRow(a, n, ofst, m))
  }

  /** The index of the smallest lookahead: that of a row that is the transaction already, or else the first that fits. */
  ghost predicate IsChoice(a: seq<Slot>, n: nat, t: seq<Slot>, mn: int, mx: int, i: nat)
    requires n <= |a|
  {
    exists d :: IsDuplicate(a, n, t, mn, d) && d < n && (d >= 0 ==> i == d) && (d < 0 ==> IsHole(a, n, t, mn, mx, i))
  }

  /** Choose the index of the smallest lookahead: where the transaction already is, else where it fits. */
  method Choose(a: seq<Slot>, n: nat, t: seq<Slot>, mn: int, mnAction: int, mx: int) returns (ofst: int)
    requires SlotsOK(a, n) && TransOK(t, mn, mnAction, mx) && t != [] && n + mx + 1 < |a|
    ensures CanWrite(a, ByLookahead(t), ofst)
    ensures HasRoom(a, n, t, ByLookahead(t), mn, mx) <==> EmptyRow(a, n, ofst) || ExactRow(a, n, ofst, ByLookahead(t))
    ensures ofst + mn >= 0 && IsChoice(a, n, t, mn, mx, ofst + mn)
  {
    var d := FindDuplicate(a, n, t, mn, mnAction);
    var i;
    if d >= 0 { i := d; } else { i := FindHole(a, n, t, mn, mx); }
    ChosenIsGood(a, n, t, mn, mnAction, mx, d, i);
    ofst := i - mn;
  }

  lemma ChosenIsGood(a: seq<Slot>, n: nat, t: seq<Slot>, mn: int, mnAction: int, mx: int, d: int, i: nat)
    requires SlotsOK(a, n) && TransOK(t, mn, mnAction, mx) && t != [] && n + mx + 1 < |a|
    requires IsDuplicate(a, n, t, mn, d) && (d >= 0 ==> i == d) && (d < 0 ==> IsHole(a, n, t, mn, mx, i))
    ensures GoodChoice(a, n, t, ByLookahead(t), mn, mx, i - mn)
  {
    LookaheadHolds(t);
    if d >= 0 { ChosenDuplicate(a, n, t, ByLookahead(t), mn, mx, i); } else { ChosenHole(a, n, t, ByLookahead(t), mn, mx, i); }
  }

  lemma ChosenDuplicate(a: seq<Slot>, n: nat, t: seq<Slot>, m: map<int, int>, mn: int, mx: int, i: nat)
    requires SlotsOK(a, n) && DistinctTrans(t) && Holds(t, m) && ExactRow(a, n, i - mn, m)
    ensures GoodChoice(a, n, t, m, mn, mx, i - mn)
  {
    ExactCanWrite(a, n, i - mn, t, m);
  }

  lemma ChosenHole(a: seq<Slot>, n: nat, t: seq<Slot>, m: map<int, int>, mn: int, mx: int, i: nat)
    requires SlotsOK(a, n) && t != [] && Holds(t, m) && 0 <= mn <= mx && (forall j | 0 <= j < |t| :: mn <= t[j].lookahead <= mx) && n + mx + 1 < |a|
    requires IsHole(a, n, t, mn, mx, i) && forall ofst :: !ExactRow(a, n, ofst, m)
    ensures GoodChoice(a, n, t, m, mn, mx, i - mn)
  {
    HoleCanWrite(a, n, t, m, mn, mx, i);
    HoleRoom(a, n, t, m, mn, mx, i);
  }

  /** The whole new table. */
  ghost predicate IsPlaced(a: seq<Slot>, n: nat, t: seq<Slot>, mn: int, mx: int, b: seq<Slot>, n': nat, ofst: int)
  {
    && n <= |a| && mx >= 0 && ofst + mn >= 0 && IsChoice(Grown(a, n, mx), n, t, mn, mx, ofst + mn)
    && b == WriteAll(Grown(a, n, mx), t, ofst) && n' == CountAfter(n, t, ofst)
  }

  /** Grow the table, choose an offset, write the transaction. */
  method Place(a: seq<Slot>, n: nat, t: seq<Slot>, mn: int, mnAction: int, mx: int) returns (b: seq<Slot>, n': nat, ofst: int)
    requires SlotsOK(a, n) && TransOK(t, mn, mnAction, mx) && t != []
    ensures SlotsOK(b, n') && Updated(a, n, b, n', ofst, ByLookahead(t))
    ensures HasRoom(Grown(a, n, mx), n, t, ByLookahead(t), mn, mx) <==> EmptyRow(a, n, ofst) || ExactRow(a, n, ofst, ByLookahead(t))
    ensures IsPlaced(a, n, t, mn, mx, b, n', ofst)
  {
    var a' := Grown(a, n, mx);
    GrownOK(a, n, mx);
    ofst := Choose(a', n, t, mn, mnAction, mx);
    b, n' := Write(a', n, t, ofst);
    GrownRows(a, n, mx, ofst, ByLookahead(t), b, n');
  }

  /** A row that was exact stays exact when another one is inserted with room. */
  lemma RowStays(a: seq<Slot>, n: nat, b: seq<Slot>, n': nat, ofst: int, m: map<int, int>, o: int, row: map<int, int>, la: nat)
    requires n <= |a| && n' <= |b| && Updated(a, n, b, n', ofst, m)
    requires EmptyRow(a, n, ofst) || ExactRow(a, n, ofst, m)
    requires ExactRow(a, n, o, row) && la in row
    ensures ExactRow(b, n', o, row)
  {
    assert Lookup(a, n, o, la).Some?;
  }

  /** The inserted row is exact if there was room. */
  lemma RowIsExact(a: seq<Slot>, n: nat, b: seq<Slot>, n': nat, ofst: int, m: map<int, int>)
    requires n <= |a| && n' <= |b| && Updated(a, n, b, n', ofst, m)
    requires EmptyRow(a, n, ofst) || ExactRow(a, n, ofst, m)
    ensures ExactRow(b, n', ofst, m)
  {
  }

  /** The smallest lookahead with its action and the largest lookahead, after one more action. */
  method Limits(t: seq<Slot>, mn: int, mnAction: int, mx: int, lookahead: nat, action: int) returns (mn': int, mnAction': int, mx': int)
    requires TransOK(t, mn, mnAction, mx) && lookahead !in ByLookahead(t)
    ensures TransOK(t + [Slot(lookahead, action)], mn', mnAction', mx')
  {
    mn', mnAction', mx' := mn, mnAction, mx;
    if t == [] {
      mx', mn', mnAction' := lookahead, lookahead, action;
    } else {
      if mx < lookahead { mx' := lookahead; }
      if mn > lookahead { mn', mnAction' := lookahead, action; }
    }
    Appended(t, mn, mnAction, mx, lookahead, action);
  }

  class Builder {
    var nAction: nat
    var aAction: seq<Slot>
    var aLookahead: seq<Slot>
    var mnLookahead: int
    var mnAction: int
    var mxLookahead: int

    ghost predicate Valid()
      reads this
    {
      SlotsOK(aAction, nAction) && TransOK(aLookahead, mnLookahead, mnAction, mxLookahead)
    }

    constructor ()
      ensures Valid() && aLookahead == [] && nAction == 0 && aAction == []
    {
      nAction, aAction, aLookahead := 0, [], [];
    }

    /** Add an action to the current transaction. */
    method AddAction(lookahead: nat, action: int)
      requires Valid() && lookahead !in ByLookahead(aLookahead)
      modifies this
      ensures Valid() && aLookahead == old(aLookahead) + [Slot(lookahead, action)]
      ensures aAction == old(aAction) && nAction == old(nAction)
    {
      mnLookahead, mnAction, mxLookahead := Limits(aLookahead, mnLookahead, mnAction, mxLookahead, lookahead, action);
      aLookahead := aLookahead + [Slot(lookahead, action)];
    }

    /** There is room for the current transaction. */
    ghost predicate Roomy()
      requires Valid() && aLookahead != []
      reads this
    {
      HasRoom(Grown(aAction, nAction, mxLookahead), nAction, aLookahead, ByLookahead(aLookahead), mnLookahead, mxLookahead)
    }

    /**
     Put the current transaction into the table and start a new one.  Every lookup finds
     what it found before, except that the row at the returned offset has the actions of
     the transaction; and it has no others exactly if there was room.
     */
    method Insert() returns (ofst: int)
      requires Valid() && aLookahead != []
      modifies this
      ensures Valid() && aLookahead == []
      ensures Updated(old(aAction), old(nAction), aAction, nAction, ofst, old(ByLookahead(aLookahead)))
      ensures old(Roomy()) <==> EmptyRow(old(aAction), old(nAction), ofst) || ExactRow(old(aAction), old(nAction), ofst, old(ByLookahead(aLookahead)))
      ensures IsPlaced(old(aAction), old(nAction), old(aLookahead), old(mnLookahead), old(mxLookahead), aAction, nAction, ofst)
    {
      aAction, nAction, ofst := Place(aAction, nAction, aLookahead, mnLookahead, mnAction, mxLookahead);
      aLookahead := [];
    }
  }

  lemma AppendedTrans(t: seq<Slot>, lookahead: nat, action: int)
    requires DistinctTrans(t) && lookahead !in ByLookahead(t)
    ensures DistinctTrans(t + [Slot(lookahead, action)])
    ensures ByLookahead(t + [Slot(lookahead, action)]) == ByLookahead(t)[lookahead := action]
  {
    var t' := t + [Slot(lookahead, action)];
    assert t'[..|t|] == t;
    LookaheadHolds(t);
  }

  lemma Appended(t: seq<Slot>, mn: int, mnAction: int, mx: int, lookahead: nat, action: int)
    requires TransOK(t, mn, mnAction, mx) && lookahead !in ByLookahead(t)
    ensures var less := t == [] || lookahead < mn;
            var more := t == [] || lookahead > mx;
            TransOK(t + [Slot(lookahead, action)], if less then lookahead else mn, if less then action else mnAction, if more then lookahead else mx)
    ensures ByLookahead(t + [Slot(lookahead, action)]) == ByLookahead(t)[lookahead := action]
  {
    AppendedTrans(t, lookahead, action);
    var t' := t + [Slot(lookahead, action)];
    assert t'[|t|] == Slot(lookahead, action);
    forall j | 0 <= j < |t| ensures t'[j] == t[j] { }
  }

  lemma GrownOK(a: seq<Slot>, n: nat, mx: nat)
    requires SlotsOK(a, n)
    ensures SlotsOK(Grown(a, n, mx), n)
  {
  }

  lemma GrownLookup(a: seq<Slot>, n: nat, mx: nat)
    requires SlotsOK(a, n)
    ensures |Grown(a, n, mx)| >= n && forall o: int, la: nat :: Lookup(Grown(a, n, mx), n, o, la) == Lookup(a, n, o, la)
  {
  }

  /** Growing changes no row. */
  lemma GrownRows(a: seq<Slot>, n: nat, mx: nat, ofst: int, m: map<int, int>, b: seq<Slot>, n': nat)
    requires SlotsOK(a, n) && n' <= |b| && |Grown(a, n, mx)| >= n && Updated(Grown(a, n, mx), n, b, n', ofst, m)
    ensures Updated(a, n, b, n', ofst, m)
    ensures EmptyRow(Grown(a, n, mx), n, ofst) <==> EmptyRow(a, n, ofst)
    ensures ExactRow(Grown(a, n, mx), n, ofst, m) <==> ExactRow(a, n, ofst, m)
  {
    GrownLookup(a, n, mx);
  }

  lemma ExactCanWrite(a: seq<Slot>, n: nat, ofst: int, t: seq<Slot>, m: map<int, int>)
    requires n <= |a| && DistinctTrans(t) && Holds(t, m) && ExactRow(a, n, ofst, m)
    ensures CanWrite(a, m, ofst)
  {
    ExactMatches(a, n, ofst, t, m);
    forall la | la in m ensures 0 <= la + ofst < |a| && a[la + ofst] == Slot(la, m[la]) {
      var j :| 0 <= j < |t| && t[j] == Slot(la, m[la]);
      assert a[t[j].lookahead + ofst] == t[j];
    }
  }

  lemma HoleCanWrite(a: seq<Slot>, n: nat, t: seq<Slot>, m: map<int, int>, mn: int, mx: int, i: nat)
    requires SlotsOK(a, n) && 0 <= mn <= mx && (forall j | 0 <= j < |t| :: mn <= t[j].lookahead <= mx) && n + mx + 1 < |a|
    requires i <= |a| - mx && (i < |a| - mx ==> Fits(a, n, t, mn, i))
    requires i == |a| - mx ==> forall k: nat | k < |a| - mx :: !Fits(a, n, t, mn, k)
    requires Holds(t, m)
    ensures CanWrite(a, m, i - mn)
  {
    if mn <= 1 { FarFits(a, n, t, mn, mx); }
    forall la | la in m ensures 0 <= la + (i - mn) < |a| && a[la + (i - mn)].lookahead < 0 {
      var j :| 0 <= j < |t| && t[j] == Slot(la, m[la]);
      assert t[j].lookahead - mn + i == la + (i - mn);
    }
  }

  lemma HoleRoom(a: seq<Slot>, n: nat, t: seq<Slot>, m: map<int, int>, mn: int, mx: int, i: nat)
    requires n <= |a| && 0 <= mn <= mx && t != []
    requires forall ofst :: !ExactRow(a, n, ofst, m)
    requires i <= |a| - mx && (i < |a| - mx ==> Fits(a, n, t, mn, i))
    requires i == |a| - mx ==> forall k: nat | k < |a| - mx :: !Fits(a, n, t, mn, k)
    ensures HasRoom(a, n, t, m, mn, mx) <==> EmptyRow(a, n, i - mn)
  {
    if i < |a| - mx { FitsIsEmpty(a, n, t, mn, i); }
  }
}
