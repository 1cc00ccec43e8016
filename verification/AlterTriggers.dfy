/**
 The alters that the triggers of `_space`, `_index` and `_truncate` make: the operation
 lists they build, the key list that the operations amend, and the new version that is
 created from it.  Every such alter can be rolled back.
 */
module AlterTriggers {
  import opened Options
  import opened AlterSpace

  // ---------------------------------------------------------------------------
  // The lists that the triggers build
  // ---------------------------------------------------------------------------

  /** How an index that is not altered itself gets into the new version. */
  datatype Way = Move | Modify | Rebuild

  function WayOp(s: Space, iid: nat, way: Way): Op
    requires iid in s.index
  {
    match way
    case Move => MoveIndex(iid)
    case Modify => ModifyIndex(iid, s.index[iid], 0)
    case Rebuild => RebuildIndex(iid)
  }

  /** The operation keeps an index of the range in the new version. */
  ghost predicate KeepsIndex(s: Space, begin: nat, end: nat, op: Op)
  {
    && (op.MoveIndex? || op.ModifyIndex? || op.RebuildIndex?)
    && begin <= op.iid < end && op.iid in s.index && (op.ModifyIndex? ==> op.oldIndex == s.index[op.iid])
  }

  /** One operation per index. */
  ghost predicate Keeping(s: Space, begin: nat, end: nat, ops: seq<Op>)
  {
    && (forall k | 0 <= k < |ops| :: KeepsIndex(s, begin, end, ops[k]))
    && (forall i, j | 0 <= i < j < |ops| :: ops[i].iid != ops[j].iid)
  }

  lemma KeepingApart(s: Space, begin: nat, end: nat, ops: seq<Op>)
    requires Keeping(s, begin, end, ops)
    ensures AllApart(ops)
  {
    forall i, j | 0 <= i < j < |ops| ensures Apart(ops[i], ops[j]) {
      assert KeepsIndex(s, begin, end, ops[i]) && KeepsIndex(s, begin, end, ops[j]);
    }
  }

  lemma KeepingMore(s: Space, begin: nat, mid: nat, end: nat, ops: seq<Op>, more: seq<Op>)
    requires begin <= mid <= end && Keeping(s, begin, mid, ops) && Keeping(s, mid, end, more)
    ensures Keeping(s, begin, end, ops + more)
  {
    forall k | 0 <= k < |ops + more| ensures KeepsIndex(s, begin, end, (ops + more)[k]) {
      assert if k < |ops| then KeepsIndex(s, begin, mid, ops[k]) else KeepsIndex(s, mid, end, more[k - |ops|]);
    }
    forall i, j | 0 <= i < j < |ops + more| ensures (ops + more)[i].iid != (ops + more)[j].iid {
      if i < |ops| <= j { assert KeepsIndex(s, begin, mid, ops[i]) && KeepsIndex(s, mid, end, more[j - |ops|]); }
    }
  }

  /** The list moves every index of the range, in the given way. */
  ghost predicate MovesAll(s: Space, begin: nat, end: nat, way: nat -> Way, ops: seq<Op>)
  {
    forall i | begin <= i < end && i in s.index :: WayOp(s, i, way(i)) in ops
  }

  lemma MovesOneMore(s: Space, begin: nat, i: nat, way: nat -> Way, ops: seq<Op>)
    requires begin <= i && i in s.index && Keeping(s, begin, i, ops) && MovesAll(s, begin, i, way, ops)
    ensures Keeping(s, begin, i + 1, ops + [WayOp(s, i, way(i))]) && MovesAll(s, begin, i + 1, way, ops + [WayOp(s, i, way(i))])
  {
    var op := WayOp(s, i, way(i));
    assert Keeping(s, begin, i + 1, ops + [op]) by {
      assert Keeping(s, i, i + 1, [op]);
      KeepingMore(s, begin, i, i + 1, ops, [op]);
    }
    MovesMore(s, begin, i, way, ops, op);
  }

  lemma MovesMore(s: Space, begin: nat, i: nat, way: nat -> Way, ops: seq<Op>, op: Op)
    requires begin <= i && i in s.index && op == WayOp(s, i, way(i)) && MovesAll(s, begin, i, way, ops)
    ensures MovesAll(s, begin, i + 1, way, ops + [op])
  {
    forall j | begin <= j < i + 1 && j in s.index ensures WayOp(s, j, way(j)) in ops + [op] {
      if j < i { assert WayOp(s, j, way(j)) in ops; }
    }
  }

  lemma MovesNoMore(s: Space, begin: nat, i: nat, way: nat -> Way, ops: seq<Op>)
    requires begin <= i && i !in s.index && Keeping(s, begin, i, ops) && MovesAll(s, begin, i, way, ops)
    ensures Keeping(s, begin, i + 1, ops) && MovesAll(s, begin, i + 1, way, ops)
  {
    KeepingMore(s, begin, i, i + 1, ops, []);
    assert ops + [] == ops;
  }

  /** `alter_space_move_indexes`: one operation for every index of the range. */
  method MoveIndexes(s: Space, begin: nat, end: nat, way: nat -> Way) returns (ops: seq<Op>)
    requires begin <= end
    ensures Keeping(s, begin, end, ops) && MovesAll(s, begin, end, way, ops)
  {
    ops := [];
    var i := begin;
    while i < end
      invariant begin <= i <= end && Keeping(s, begin, i, ops) && MovesAll(s, begin, i, way, ops)
    {
      if i in s.index {
        MovesOneMore(s, begin, i, way, ops);
        ops := ops + [WayOp(s, i, way(i))];
      } else {
        MovesNoMore(s, begin, i, way, ops);
      }
      i := i + 1;
    }
  }

  /** What becomes of the altered index. */
  datatype Change = Dropped | Made | Same | Rebuilt | Modified

  /** What the constraint names of the index were and will be, if it was or will be unique. */
  datatype Names = Names(before: Option<string>, after: Option<string>)

  /** The operations on constraint names: a name that stays is left alone. */
  function IdOps(names: Names, id: int): seq<Op>
  {
    (if names.after.Some? && names.before != names.after then [CreateConstraintID(names.after.value, id)] else []) +
    (if names.before.Some? && names.before != names.after then [DropConstraintID(names.before.value, 0)] else [])
  }

  function ChangeOps(s: Space, iid: nat, change: Change): seq<Op>
    requires change.Modified? ==> iid in s.index
  {
    match change
    case Dropped => [DropIndex(iid)]
    case Made => [CreateIndex(iid)]
    case Same => [MoveIndex(iid)]
    case Rebuilt => [RebuildIndex(iid)]
    case Modified => [CheckSpaceFormat, ModifyIndex(iid, s.index[iid], 0)]
  }

  lemma ApartConcat(a: seq<Op>, b: seq<Op>)
    requires AllApart(a) && AllApart(b) && forall x, y | x in a && y in b :: Apart(x, y)
    ensures AllApart(a + b)
  {
    forall i, j | 0 <= i < j < |a + b| ensures Apart((a + b)[i], (a + b)[j]) {
      if j < |a| {
        assert Apart(a[i], a[j]);
      } else if i >= |a| {
        assert Apart(b[i - |a|], b[j - |a|]);
      } else {
        assert a[i] in a && b[j - |a|] in b;
      }
    }
  }

  /** Constraint names are put before the moves when an index is changed, after those below it when it is made or dropped. */
  function Head(change: Change, ids: seq<Op>, before: seq<Op>): seq<Op>
  {
    if change.Dropped? || change.Made? then before + ids else ids + before
  }

  function IndexList(s: Space, iid: nat, change: Change, names: Names, id: int, before: seq<Op>, after: seq<Op>): seq<Op>
    requires change.Modified? ==> iid in s.index
  {
    Head(change, IdOps(names, id), before) + ChangeOps(s, iid, change) + after + [MoveCkConstraints, UpdateSchemaVersion]
  }

  /** The operations change names, or slots of the range, or nothing. */
  ghost predicate InRange(ops: seq<Op>, lo: nat, hi: nat)
  {
    forall op | op in ops :: PartOf(op).IdPart? || PartOf(op) == NoPart || (PartOf(op).Slot? && lo <= PartOf(op).iid < hi)
  }

  ghost predicate NoIds(ops: seq<Op>)
  {
    forall op | op in ops :: !PartOf(op).IdPart?
  }

  lemma RangesApart(a: seq<Op>, b: seq<Op>, lo: nat, mid: nat, hi: nat)
    requires InRange(a, lo, mid) && InRange(b, mid, hi) && NoIds(b) && AllApart(a) && AllApart(b)
    ensures AllApart(a + b) && (lo <= mid <= hi ==> InRange(a + b, lo, hi))
  {
    ApartConcat(a, b);
  }

  lemma KeepingInRange(s: Space, lo: nat, hi: nat, ops: seq<Op>)
    requires Keeping(s, lo, hi, ops)
    ensures AllApart(ops) && InRange(ops, lo, hi) && NoIds(ops) && forall op | op in ops :: KeepsIndex(s, lo, hi, op)
  {
    KeepingApart(s, lo, hi, ops);
  }

  lemma HeadApart(s: Space, iid: nat, change: Change, names: Names, id: int, before: seq<Op>)
    requires Keeping(s, 0, iid, before)
    ensures var head := Head(change, IdOps(names, id), before);
            AllApart(head) && InRange(head, 0, iid) && forall op | op in head :: op in IdOps(names, id) || op in before
  {
    var ids := IdOps(names, id);
    KeepingInRange(s, 0, iid, before);
    IdOpsAreIds(names, id);
    IdsApart(ids, before);
    ApartConcat(ids, before);
    ApartConcat(before, ids);
  }

  ghost predicate OnlyIds(ops: seq<Op>)
  {
    forall op | op in ops :: PartOf(op).IdPart?
  }

  lemma IdOpsAreIds(names: Names, id: int)
    ensures AllApart(IdOps(names, id)) && OnlyIds(IdOps(names, id))
  {
  }

  lemma IdsApart(ids: seq<Op>, ops: seq<Op>)
    requires OnlyIds(ids) && NoIds(ops)
    ensures forall x, y | x in ids && y in ops :: Apart(x, y) && Apart(y, x)
  {
    forall x, y | x in ids && y in ops ensures Apart(x, y) && Apart(y, x) {
      assert PartOf(x).IdPart? && !PartOf(y).IdPart?;
    }
  }

  lemma IndexListApart(s: Space, iid: nat, max: nat, change: Change, names: Names, id: int, before: seq<Op>, after: seq<Op>)
    requires iid <= max && (change.Modified? ==> iid in s.index) && Keeping(s, 0, iid, before) && Keeping(s, iid + 1, max + 1, after)
    ensures AllApart(IndexList(s, iid, change, names, id, before, after))
  {
    var head, mid, tail := Head(change, IdOps(names, id), before), ChangeOps(s, iid, change), [MoveCkConstraints, UpdateSchemaVersion];
    HeadApart(s, iid, change, names, id, before);
    KeepingInRange(s, iid + 1, max + 1, after);
    RangesApart(head, mid, 0, iid, iid + 1);
    RangesApart(head + mid, after, 0, iid + 1, max + 1);
    ApartConcat(head + mid + after, tail);
  }

  /** The list of the space trigger: a new definition, checks rebuilt, all indexes kept. */
  function SpaceList(newDict: nat, checks: seq<int>, moves: seq<Op>): seq<Op>
  {
    [CheckSpaceFormat, ModifySpace(newDict), RebuildCkConstraints(checks)] + moves + [UpdateSchemaVersion]
  }

  /** The list of the truncate trigger: all indexes are made anew. */
  function TruncateList(iids: seq<nat>): seq<Op>
  {
    seq(|iids|, k requires 0 <= k < |iids| => TruncateIndex(iids[k])) + [MoveCkConstraints]
  }

  lemma SpaceListApart(s: Space, max: nat, newDict: nat, checks: seq<int>, moves: seq<Op>)
    requires Keeping(s, 0, max + 1, moves)
    ensures AllApart(SpaceList(newDict, checks, moves))
  {
    var head, tail := [CheckSpaceFormat, ModifySpace(newDict), RebuildCkConstraints(checks)], [UpdateSchemaVersion];
    KeepingApart(s, 0, max + 1, moves);
    forall x, y | x in head && y in moves ensures Apart(x, y) {
      assert KeepsIndex(s, 0, max + 1, y);
    }
    ApartConcat(head, moves);
    forall x, y | x in head + moves && y in tail ensures Apart(x, y) {
      assert x in head || KeepsIndex(s, 0, max + 1, x);
    }
    ApartConcat(head + moves, tail);
  }

  // ---------------------------------------------------------------------------
  // The triggers
  // ---------------------------------------------------------------------------

  /** What a trigger has decided to do. */
  datatype Trigger =
    | OnIndex(iid: nat, max: nat, change: Change, names: Names, id: int, before: seq<Op>, after: seq<Op>)
    | OnSpace(max: nat, newDict: nat, checks: seq<int>, moves: seq<Op>)
    | OnTruncate(iids: seq<nat>)

  function OpsOf(s: Space, t: Trigger): seq<Op>
    requires t.OnIndex? && t.change.Modified? ==> t.iid in s.index
  {
    match t
    case OnIndex(iid, max, change, names, id, before, after) => IndexList(s, iid, change, names, id, before, after)
    case OnSpace(max, newDict, checks, moves) => SpaceList(newDict, checks, moves)
    case OnTruncate(iids) => TruncateList(iids)
  }

  /**
   The trigger has this to do with the space `s`: an index is made if it was not there, and
   changed or dropped if it was; the constraint name of a unique index is in the namespace
   of the space; and a new constraint name is free, or the alter has failed.
   */
  ghost predicate Fires(s: Space, t: Trigger)
  {
    match t
    case OnIndex(iid, max, change, names, id, before, after) =>
      && iid <= max && (change.Made? <==> iid !in s.index) && Keeping(s, 0, iid, before) && Keeping(s, iid + 1, max + 1, after)
      && (names.after.Some? && names.before != names.after ==> names.after.value !in s.ids)
      && (names.before.Some? ==> names.before.value in s.ids)
    case OnSpace(max, newDict, checks, moves) => Keeping(s, 0, max + 1, moves)
    case OnTruncate(iids) => forall i | i in iids :: i in s.index
  }

  method IndexOps(s: Space, iid: nat, max: nat, change: Change, names: Names, id: int, way: nat -> Way) returns (ops: seq<Op>, ghost t: Trigger)
    requires iid <= max && (change.Made? <==> iid !in s.index)
    requires (names.after.Some? && names.before != names.after ==> names.after.value !in s.ids) && (names.before.Some? ==> names.before.value in s.ids)
    ensures Fires(s, t) && ops == OpsOf(s, t) && t.OnIndex? && t.iid == iid && t.change == change && t.names == names && t.id == id
    ensures forall i | 0 <= i <= max && i != iid && i in s.index :: WayOp(s, i, way(i)) in ops
    ensures forall op | op in ChangeOps(s, iid, change) || op in IdOps(names, id) :: op in ops
  {
    var before := MoveIndexes(s, 0, iid, way);
    var after := MoveIndexes(s, iid + 1, max + 1, way);
    ops := IndexList(s, iid, change, names, id, before, after);
    t := OnIndex(iid, max, change, names, id, before, after);
  }

  method SpaceOps(s: Space, max: nat, newDict: nat, checks: seq<int>, way: nat -> Way) returns (ops: seq<Op>, ghost t: Trigger)
    ensures Fires(s, t) && ops == OpsOf(s, t) && t.OnSpace? && t.newDict == newDict && t.checks == checks
    ensures forall i | 0 <= i <= max && i in s.index :: WayOp(s, i, way(i)) in ops
    ensures ModifySpace(newDict) in ops && RebuildCkConstraints(checks) in ops
  {
    var moves := MoveIndexes(s, 0, max + 1, way);
    ops := SpaceList(newDict, checks, moves);
    t := OnSpace(max, newDict, checks, moves);
  }

  method TruncateOps(s: Space, iids: seq<nat>) returns (ops: seq<Op>, ghost t: Trigger)
    requires forall i | i in iids :: i in s.index
    ensures Fires(s, t) && ops == OpsOf(s, t) && t == OnTruncate(iids)
    ensures forall i | i in iids :: TruncateIndex(i) in ops
  {
    ops := [];
    var i := 0;
    while i < |iids|
      invariant 0 <= i <= |iids| && |ops| == i && forall k | 0 <= k < i :: ops[k] == TruncateIndex(iids[k])
    {
      ops := ops + [TruncateIndex(iids[i])];
      i := i + 1;
    }
    ghost var truncates := ops;
    ops := ops + [MoveCkConstraints];
    assert forall k | 0 <= k < |truncates| :: ops[k] == truncates[k];
    t := OnTruncate(iids);
  }

  lemma ListsApart(s: Space, t: Trigger)
    requires Fires(s, t)
    ensures AllApart(OpsOf(s, t))
  {
    match t
    case OnIndex(iid, max, change, names, id, before, after) => IndexListApart(s, iid, max, change, names, id, before, after);
    case OnSpace(max, newDict, checks, moves) => SpaceListApart(s, max, newDict, checks, moves);
    case OnTruncate(iids) =>
  }

  /** The operation is about one index. */
  predicate IsIndexOp(op: Op)
  {
    op.MoveIndex? || op.ModifyIndex? || op.RebuildIndex? || op.CreateIndex? || op.DropIndex?
  }

  lemma KeepingOnce(s: Space, begin: nat, end: nat, ops: seq<Op>, a: Op, b: Op)
    requires Keeping(s, begin, end, ops) && a in ops && b in ops && a.iid == b.iid
    ensures a == b
  {
    var i :| 0 <= i < |ops| && ops[i] == a;
    var j :| 0 <= j < |ops| && ops[j] == b;
    assert !(i < j) && !(j < i);
  }

  /** The lists have at most one such operation per index. */
  lemma OncePerIndex(s: Space, t: Trigger, a: Op, b: Op)
    requires Fires(s, t) && a in OpsOf(s, t) && b in OpsOf(s, t) && IsIndexOp(a) && IsIndexOp(b) && a.iid == b.iid
    ensures a == b
  {
    match t
    case OnIndex(_, _, _, _, _, _, _) => OncePerChange(s, t, a, b);
    case OnSpace(max, _, _, moves) =>
      SpaceOpPlace(s, t, a);
      SpaceOpPlace(s, t, b);
      KeepingOnce(s, 0, max + 1, moves, a, b);
  }

  lemma OncePerChange(s: Space, t: Trigger, a: Op, b: Op)
    requires Fires(s, t) && t.OnIndex? && a in OpsOf(s, t) && b in OpsOf(s, t) && IsIndexOp(a) && IsIndexOp(b) && a.iid == b.iid
    ensures a == b
  {
    IndexOpPlace(s, t, a);
    IndexOpPlace(s, t, b);
    PlaceOnce(s, t.iid, t.max, t.change, t.before, t.after, a, b);
  }

  /** The operation is in the part of the list of the index trigger that is for its index. */
  predicate InPlace(s: Space, iid: nat, change: Change, before: seq<Op>, after: seq<Op>, op: Op)
    requires IsIndexOp(op) && (change.Modified? ==> iid in s.index)
  {
    if op.iid < iid then op in before else if op.iid > iid then op in after else op in ChangeOps(s, iid, change)
  }

  lemma PlaceOnce(s: Space, iid: nat, max: nat, change: Change, before: seq<Op>, after: seq<Op>, a: Op, b: Op)
    requires IsIndexOp(a) && IsIndexOp(b) && a.iid == b.iid && (change.Modified? ==> iid in s.index)
    requires Keeping(s, 0, iid, before) && Keeping(s, iid + 1, max + 1, after)
    requires InPlace(s, iid, change, before, after, a) && InPlace(s, iid, change, before, after, b)
    ensures a == b
  {
    if a.iid < iid {
      KeepingOnce(s, 0, iid, before, a, b);
    } else if a.iid > iid {
      KeepingOnce(s, iid + 1, max + 1, after, a, b);
    }
  }

  lemma SpaceOpPlace(s: Space, t: Trigger, op: Op)
    requires Fires(s, t) && t.OnSpace? && op in OpsOf(s, t) && IsIndexOp(op)
    ensures op in t.moves
  {
    assert op in [CheckSpaceFormat, ModifySpace(t.newDict), RebuildCkConstraints(t.checks)] || op in t.moves || op in [UpdateSchemaVersion];
  }

  lemma IndexOpPlace(s: Space, t: Trigger, op: Op)
    requires Fires(s, t) && t.OnIndex? && op in OpsOf(s, t) && IsIndexOp(op)
    ensures InPlace(s, t.iid, t.change, t.before, t.after, op)
  {
    assert op in t.before ==> KeepsIndex(s, 0, t.iid, op);
    assert op in t.after ==> KeepsIndex(s, t.iid + 1, t.max + 1, op);
    assert op in IdOps(t.names, t.id) || op in t.before || op in ChangeOps(s, t.iid, t.change) || op in t.after || op in [MoveCkConstraints, UpdateSchemaVersion];
  }

  // ---------------------------------------------------------------------------
  // The key list
  // ---------------------------------------------------------------------------

  /** What the operation does to the definitions of the new version: the `alter_def` phase.  Definitions are by index id. */
  function AlterDef(keys: map<nat, int>, op: Op, newDef: nat -> int): map<nat, int>
  {
    match op
    case DropIndex(iid) => keys - {iid}
    case CreateIndex(iid) => keys[iid := newDef(iid)]
    case RebuildIndex(iid) => keys[iid := newDef(iid)]
    case ModifyIndex(iid, _, _) => keys[iid := newDef(iid)]
    case _ => keys
  }

  function AlterDefs(keys: map<nat, int>, ops: seq<Op>, newDef: nat -> int): map<nat, int>
  {
    if ops == [] then keys else AlterDef(AlterDefs(keys, ops[..|ops| - 1], newDef), ops[|ops| - 1], newDef)
  }

  method AmendKeyList(keys: map<nat, int>, ops: seq<Op>, newDef: nat -> int) returns (keys': map<nat, int>)
    ensures keys' == AlterDefs(keys, ops, newDef)
  {
    keys' := keys;
    var k := 0;
    while k < |ops|
      invariant 0 <= k <= |ops| && keys' == AlterDefs(keys, ops[..k], newDef)
    {
      assert ops[..k + 1][..k] == ops[..k];
      keys' := AlterDef(keys', ops[k], newDef);
      k := k + 1;
    }
    assert ops[..k] == ops;
  }

  /** The operation gives the index `i` a new definition. */
  predicate Defines(op: Op, i: nat)
  {
    (op.CreateIndex? || op.RebuildIndex? || op.ModifyIndex?) && op.iid == i
  }

  /** The operation uses the index `i` of the new version. */
  predicate Uses(op: Op, i: nat)
  {
    (op.CreateIndex? || op.RebuildIndex? || op.ModifyIndex? || op.TruncateIndex? || op.MoveIndex?) && op.iid == i
  }

  /** An index that is not dropped is in the new version if it was in the old one or is defined. */
  lemma {:induction false} KeyIsIn(keys: map<nat, int>, ops: seq<Op>, newDef: nat -> int, i: nat)
    requires DropIndex(i) !in ops && (i in keys || exists k :: 0 <= k < |ops| && Defines(ops[k], i))
    ensures i in AlterDefs(keys, ops, newDef)
  {
    if ops != [] {
      var n := |ops| - 1;
      assert ops[n] in ops;
      if !Defines(ops[n], i) {
        if i !in keys {
          var k :| 0 <= k < |ops| && Defines(ops[k], i);
          assert Defines(ops[..n][k], i);
        }
        KeyIsIn(keys, ops[..n], newDef, i);
      }
    }
  }

  /** An index that is dropped is not. */
  lemma {:induction false} KeyIsOut(keys: map<nat, int>, ops: seq<Op>, newDef: nat -> int, i: nat)
    requires (forall k | 0 <= k < |ops| :: !Defines(ops[k], i)) && (DropIndex(i) in ops || i !in keys)
    ensures i !in AlterDefs(keys, ops, newDef)
  {
    if ops != [] {
      var n := |ops| - 1;
      if ops[n] != DropIndex(i) {
        assert ops == ops[..n] + [ops[n]];
        KeyIsOut(keys, ops[..n], newDef, i);
      }
    }
  }

  /** An index of the amended list has its new definition if an operation gives it one, and otherwise the one that it had. */
  lemma {:induction false} KeyValue(keys: map<nat, int>, ops: seq<Op>, newDef: nat -> int, i: nat)
    requires i in AlterDefs(keys, ops, newDef)
    ensures (exists op | op in ops :: Defines(op, i)) ==> AlterDefs(keys, ops, newDef)[i] == newDef(i)
    ensures (forall op | op in ops :: !Defines(op, i)) ==> i in keys && AlterDefs(keys, ops, newDef)[i] == keys[i]
  {
    if ops != [] {
      var n := |ops| - 1;
      assert ops == ops[..n] + [ops[n]];
      if !Defines(ops[n], i) {
        KeyValue(keys, ops[..n], newDef, i);
        if op :| op in ops && Defines(op, i) { assert op in ops[..n]; }
      }
    }
  }

  /** Every operation finds its index in the new version. */
  lemma ListsFindIndexes(s: Space, t: Trigger, keys: map<nat, int>, newDef: nat -> int, k: nat, i: nat)
    requires Fires(s, t) && keys.Keys == s.index.Keys && k < |OpsOf(s, t)| && Uses(OpsOf(s, t)[k], i)
    ensures i in AlterDefs(keys, OpsOf(s, t), newDef)
  {
    var ops := OpsOf(s, t);
    assert ops[k] in ops;
    ListOrigins(s, t, ops[k]);
    if DropIndex(i) in ops { ListOrigins(s, t, DropIndex(i)); }
    if i !in keys { assert Defines(ops[k], i); }
    KeyIsIn(keys, ops, newDef, i);
  }

  /** Where the operations on indexes come from. */
  lemma ListOrigins(s: Space, t: Trigger, op: Op)
    requires Fires(s, t) && op in OpsOf(s, t)
    ensures op.DropIndex? ==> t.OnIndex? && t.change.Dropped? && op.iid == t.iid
    ensures op.CreateIndex? ==> t.OnIndex? && t.change.Made? && op.iid == t.iid
    ensures op.RebuildIndex? || op.ModifyIndex? || op.TruncateIndex? || op.MoveIndex? ==> op.iid in s.index && (t.OnIndex? && t.change.Dropped? ==> op.iid != t.iid)
    ensures op.ModifyIndex? ==> op.oldIndex == s.index[op.iid]
    ensures op.ModifySpace? ==> t.OnSpace? && op.newDict == t.newDict
    ensures op.CreateConstraintID? ==> t.OnIndex? && t.names.after == Some(op.name) && t.names.before != t.names.after
    ensures op.DropConstraintID? ==> t.OnIndex? && t.names.before == Some(op.name)
  {
    match t
    case OnIndex(iid, max, change, names, id, before, after) => IndexListOrigins(s, iid, max, change, names, id, before, after, op);
    case OnSpace(max, newDict, checks, moves) => assert op in moves ==> KeepsIndex(s, 0, max + 1, op);
    case OnTruncate(iids) =>
  }

  lemma IndexListOrigins(s: Space, iid: nat, max: nat, change: Change, names: Names, id: int, before: seq<Op>, after: seq<Op>, op: Op)
    requires iid <= max && (change.Made? <==> iid !in s.index) && Keeping(s, 0, iid, before) && Keeping(s, iid + 1, max + 1, after)
    requires op in IndexList(s, iid, change, names, id, before, after)
    ensures op.DropIndex? ==> change.Dropped? && op.iid == iid
    ensures op.CreateIndex? ==> change.Made? && op.iid == iid
    ensures op.RebuildIndex? || op.ModifyIndex? || op.TruncateIndex? || op.MoveIndex? ==> op.iid in s.index && (change.Dropped? ==> op.iid != iid)
    ensures op.ModifyIndex? ==> op.oldIndex == s.index[op.iid]
    ensures !op.ModifySpace?
    ensures op.CreateConstraintID? ==> names.after == Some(op.name) && names.before != names.after
    ensures op.DropConstraintID? ==> names.before == Some(op.name)
  {
    assert op in IdOps(names, id) || op in before || op in ChangeOps(s, iid, change) || op in after || op in [MoveCkConstraints, UpdateSchemaVersion];
    assert op in before ==> KeepsIndex(s, 0, iid, op);
    assert op in after ==> KeepsIndex(s, iid + 1, max + 1, op);
  }

  // ---------------------------------------------------------------------------
  // The new version
  // ---------------------------------------------------------------------------

  /** `space_dump_def`: the definitions of a version. */
  ghost function KeyList(w: World, s: Space): map<nat, int>
    requires forall i | i in s.index :: s.index[i] in w.defs
  {
    map i | i in s.index :: w.defs[s.index[i]]
  }

  ghost predicate Injective(m: map<nat, nat>)
  {
    forall i, j | i in m && j in m && i != j :: m[i] != m[j]
  }

  /** The new version has a new index object with the given definition for every key, and the dictionary of the old version. */
  ghost predicate IsNewSpace(keys: map<nat, int>, dict: nat, blank: Space, newDefs: map<nat, int>)
  {
    && blank.index.Keys == keys.Keys && Injective(blank.index) && blank.dict == dict && blank.index.Values == newDefs.Keys
    && (forall i | i in keys :: newDefs[blank.index[i]] == keys[i])
  }

  /** `space_new`: objects are numbered from `free` on. */
  method NewSpace(keys: map<nat, int>, dict: nat, def: int, free: nat) returns (blank: Space, newDefs: map<nat, int>)
    ensures IsNewSpace(keys, dict, blank, newDefs) && blank.def == def && forall x | x in newDefs :: x >= free
  {
    var index: map<nat, nat> := map[];
    newDefs := map[];
    var todo, next := keys.Keys, free;
    while todo != {}
      invariant todo <= keys.Keys && index.Keys == keys.Keys - todo && free <= next
      invariant Injective(index) && newDefs.Keys == index.Values
      invariant (forall i | i in index :: free <= index[i] < next && newDefs[index[i]] == keys[i])
    {
      var i :| i in todo;
      ghost var index0, newDefs0 := index, newDefs;
      index, newDefs := index[i := next], newDefs[next := keys[i]];
      Numbered(index0, i, next);
      todo, next := todo - {i}, next + 1;
    }
    blank := Space(index, [], [], [], 0, [], 0, map[], dict, def);
    forall x | x in newDefs ensures x >= free {
      var i :| i in index && index[i] == x;
    }
  }

  lemma Numbered(index: map<nat, nat>, i: nat, x: nat)
    requires i !in index && x !in index.Values
    ensures index[i := x].Values == index.Values + {x}
  {
    var index' := index[i := x];
    assert index'[i] == x;
    forall y | y in index.Values ensures y in index'.Values {
      var j :| j in index && index[j] == y;
      assert index'[j] == y;
    }
  }

  /** A sound world: the cached version has its objects. */
  ghost predicate Sound(w: World)
  {
    && w.cache in w.spaces && Injective(w.spaces[w.cache].index) && w.spaces[w.cache].index.Values <= w.defs.Keys && w.spaces[w.cache].dict in w.names
  }

  /** The alter of trigger `t` after the new version has been created from the amended definitions. */
  ghost predicate MadeFor(w: World, t: Trigger, newDef: nat -> int, a: Alter)
  {
    && Sound(w) && a.oldSpace == w.cache && a.newSpace !in w.spaces && Fires(w.spaces[w.cache], t)
    && var s := w.spaces[w.cache];
       && a.ops == OpsOf(s, t) && IsNewSpace(AlterDefs(KeyList(w, s), a.ops, newDef), s.dict, a.blank, a.newDefs)
       && a.newDefs.Keys !! w.defs.Keys && a.newNames.Keys !! w.names.Keys && a.newNames.Keys == Dicts(a.ops)
  }

  lemma {:induction false} DictIsIn(ops: seq<Op>, k: nat)
    requires k < |ops| && ops[k].ModifySpace?
    ensures ops[k].newDict in Dicts(ops)
  {
    var n := |ops| - 1;
    if k < n { DictIsIn(ops[..n], k); }
  }

  lemma OperationSuits(w: World, t: Trigger, newDef: nat -> int, a: Alter, k: nat)
    requires MadeFor(w, t, newDef, a) && k < |a.ops|
    ensures OpOK(PairOf(Created(w, a), a), a.ops[k])
  {
    var s, op := w.spaces[w.cache], a.ops[k];
    assert op in a.ops;
    ListOrigins(s, t, op);
    if op.ModifyIndex? {
      ListsFindIndexes(s, t, KeyList(w, s), newDef, k, op.iid);
      assert a.blank.index[op.iid] in a.blank.index.Values && s.index[op.iid] in s.index.Values;
    }
    if op.ModifySpace? { DictIsIn(a.ops, k); }
  }

  /** Every alter that a trigger makes may be started. */
  lemma TriggersAreStartable(w: World, t: Trigger, newDef: nat -> int, a: Alter)
    requires MadeFor(w, t, newDef, a)
    ensures Startable(w, a)
  {
    ListsApart(w.spaces[w.cache], t);
    forall k | 0 <= k < |a.ops| ensures OpOK(PairOf(Created(w, a), a), a.ops[k]) { OperationSuits(w, t, newDef, a, k); }
  }

  /** Whatever a trigger alters, its rollback restores the world. */
  lemma TriggerRollsBack(w: World, t: Trigger, newDef: nat -> int, a: Alter)
    requires MadeFor(w, t, newDef, a)
    ensures Startable(w, a) && a.oldSpace in Do(w, a).spaces && a.newSpace in Do(w, a).spaces
    ensures Rollback(Do(w, a), Done(w, a)) == w.(version := w.version + Versions(a.ops))
  {
    TriggersAreStartable(w, t, newDef, a);
    RollbackIsInverse(w, a);
  }

  /** Run an alter on the engine and roll it back: the engine is as it was, apart from the schema version. */
  method AlterAndRollBack(e: Engine, a: Alter, ghost t: Trigger, ghost newDef: nat -> int)
    requires MadeFor(e.View(), t, newDef, a)
    modifies e
    ensures e.View() == old(e.View()).(version := old(e.View()).version + Versions(a.ops))
  {
    ghost var w := e.View();
    TriggerRollsBack(w, t, newDef, a);
    var a' := e.AlterSpaceDo(a);
    e.AlterSpaceRollback(a');
  }
}
