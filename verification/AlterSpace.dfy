/**
 The alter engine.  An alter is a list of operations over an old and a new version of a
 space.  Doing it moves what is kept from the old version to the new one and puts the new
 version into the cache; rolling it back, also in list order, restores everything.
 */
module AlterSpace {
  import opened Options

  /** A version of a space.  Indexes and the field dictionary are objects of their own, known by number. */
  datatype Space = Space(
    index: map<nat, nat>, triggers: seq<int>, childFk: seq<int>, parentFk: seq<int>, fkMask: int,
    ck: seq<int>, ckTrigger: int, ids: map<string, int>, dict: nat, def: int)

  /** Everything that an alter can change: the version in the cache, all versions, index definitions, field names. */
  datatype World = World(cache: nat, spaces: map<nat, Space>, defs: map<nat, int>, names: map<nat, seq<string>>, version: nat)

  /** The operations, with the fields that they keep between the phases. */
  datatype Op =
    | CheckSpaceFormat
    | ModifySpace(newDict: nat)
    | DropIndex(iid: nat)
    | MoveIndex(iid: nat)
    | ModifyIndex(iid: nat, oldIndex: nat, newIndex: nat)
    | CreateIndex(iid: nat)
    | RebuildIndex(iid: nat)
    | TruncateIndex(iid: nat)
    | UpdateSchemaVersion
    | RebuildCkConstraints(list: seq<int>)
    | MoveCkConstraints
    | CreateConstraintID(name: string, id: int)
    | DropConstraintID(name: string, oldId: int)

  /** An alter in progress: the two versions, what was created for the new one, and the operations. */
  datatype Alter = Alter(oldSpace: nat, newSpace: nat, blank: Space, newDefs: map<nat, int>, newNames: map<nat, seq<string>>, ops: seq<Op>)

  // ---------------------------------------------------------------------------
  // The operations on the two versions
  // ---------------------------------------------------------------------------

  /** The two versions and the objects they share, while an alter is done or undone. */
  datatype Pair = Pair(o: Space, n: Space, defs: map<nat, int>, names: map<nat, seq<string>>)

  function Put<K, V>(m: map<K, V>, k: K, v: Option<V>): map<K, V>
  {
    match v
    case Some(x) => m[k := x]
    case None => m - {k}
  }

  function At<K, V>(m: map<K, V>, k: K): Option<V>
  {
    if k in m then Some(m[k]) else None
  }

  /** `space_swap_index`. */
  function SwapIndex(p: Pair, iid: nat): Pair
  {
    p.(o := p.o.(index := Put(p.o.index, iid, At(p.n.index, iid))), n := p.n.(index := Put(p.n.index, iid, At(p.o.index, iid))))
  }

  function SwapValues<V>(m: map<nat, V>, a: nat, b: nat): map<nat, V>
  {
    Put(Put(m, a, At(m, b)), b, At(m, a))
  }

  /** What the operation does to the two versions: the `alter` phase. */
  function AlterPair(p: Pair, op: Op): Pair
  {
    match op
    case ModifySpace(newDict) => p.(names := SwapValues(p.names, p.n.dict, newDict))
    case MoveIndex(iid) => SwapIndex(p, iid)
    case ModifyIndex(iid, oldIndex, newIndex) =>
      if iid in p.n.index then SwapIndex(p, iid).(defs := SwapValues(p.defs, oldIndex, p.n.index[iid])) else p
    case RebuildCkConstraints(list) =>
      p.(n := p.n.(ck := list, ckTrigger := p.o.ckTrigger), o := p.o.(ck := p.n.ck, ckTrigger := p.n.ckTrigger))
    case MoveCkConstraints =>
      p.(n := p.n.(ck := p.o.ck, ckTrigger := p.o.ckTrigger), o := p.o.(ck := p.n.ck, ckTrigger := p.n.ckTrigger))
    case CreateConstraintID(name, id) => p.(o := p.o.(ids := p.o.ids[name := id]))
    case DropConstraintID(name, oldId) => p.(o := p.o.(ids := p.o.ids - {name}))
    case _ => p
  }

  /** What the operation remembers of its `alter` phase. */
  function AlterOp(p: Pair, op: Op): Op
  {
    match op
    case ModifyIndex(iid, oldIndex, newIndex) => if iid in p.n.index then ModifyIndex(iid, p.n.index[iid], oldIndex) else op
    case RebuildCkConstraints(list) => RebuildCkConstraints(p.o.ck)
    case DropConstraintID(name, oldId) => if name in p.o.ids then DropConstraintID(name, p.o.ids[name]) else op
    case _ => op
  }

  /** What the operation undoes: the `rollback` phase.  Constraint names are with the new version by then. */
  function RollbackPair(p: Pair, op: Op): Pair
  {
    match op
    case ModifySpace(newDict) => p.(names := SwapValues(p.names, p.n.dict, newDict))
    case MoveIndex(iid) => SwapIndex(p, iid)
    case ModifyIndex(iid, oldIndex, newIndex) => SwapIndex(p, iid).(defs := SwapValues(p.defs, newIndex, oldIndex))
    case RebuildCkConstraints(list) =>
      p.(o := p.o.(ck := list, ckTrigger := p.n.ckTrigger), n := p.n.(ck := p.o.ck, ckTrigger := p.o.ckTrigger))
    case MoveCkConstraints =>
      p.(o := p.o.(ck := p.n.ck, ckTrigger := p.n.ckTrigger), n := p.n.(ck := p.o.ck, ckTrigger := p.o.ckTrigger))
    case CreateConstraintID(name, id) => p.(n := p.n.(ids := p.n.ids - {name}))
    case DropConstraintID(name, oldId) => p.(n := p.n.(ids := p.n.ids[name := oldId]))
    case _ => p
  }

  /** All operations, in list order. */
  function AlterAll(p: Pair, ops: seq<Op>): Pair
  {
    if ops == [] then p else AlterPair(AlterAll(p, ops[..|ops| - 1]), ops[|ops| - 1])
  }

  function AlteredOps(p: Pair, ops: seq<Op>): seq<Op>
  {
    if ops == [] then [] else AlteredOps(p, ops[..|ops| - 1]) + [AlterOp(AlterAll(p, ops[..|ops| - 1]), ops[|ops| - 1])]
  }

  function RollbackAll(p: Pair, ops: seq<Op>): Pair
  {
    if ops == [] then p else RollbackPair(RollbackAll(p, ops[..|ops| - 1]), ops[|ops| - 1])
  }

  /** Triggers, foreign keys and constraint names change places. */
  function SwapRest(p: Pair): Pair
  {
    p.(o := p.o.(triggers := p.n.triggers, childFk := p.n.childFk, parentFk := p.n.parentFk, fkMask := p.n.fkMask, ids := p.n.ids),
       n := p.n.(triggers := p.o.triggers, childFk := p.o.childFk, parentFk := p.o.parentFk, fkMask := p.o.fkMask, ids := p.o.ids))
  }

  // ---------------------------------------------------------------------------
  // Do and rollback
  // ---------------------------------------------------------------------------

  function Versions(ops: seq<Op>): nat
  {
    if ops == [] then 0 else Versions(ops[..|ops| - 1]) + if ops[|ops| - 1].UpdateSchemaVersion? then 1 else 0
  }

  function PairOf(w: World, a: Alter): Pair
    requires a.oldSpace in w.spaces && a.newSpace in w.spaces
  {
    Pair(w.spaces[a.oldSpace], w.spaces[a.newSpace], w.defs, w.names)
  }

  function WithPair(w: World, a: Alter, p: Pair): World
  {
    w.(spaces := w.spaces[a.oldSpace := p.o][a.newSpace := p.n], defs := p.defs, names := p.names)
  }

  /** The new version and its objects are created. */
  function Created(w: World, a: Alter): World
  {
    w.(spaces := w.spaces[a.newSpace := a.blank], defs := w.defs + a.newDefs, names := w.names + a.newNames)
  }

  /** `alter_space_do`. */
  function Do(w: World, a: Alter): World
    requires a.oldSpace in w.spaces && a.oldSpace != a.newSpace
  {
    var w1 := Created(w, a);
    var p := SwapRest(AlterAll(PairOf(w1, a), a.ops));
    WithPair(w1, a, p).(cache := a.newSpace, version := w.version + Versions(a.ops))
  }

  /** The alter as `alter_space_do` leaves it. */
  function Done(w: World, a: Alter): Alter
    requires a.oldSpace in w.spaces && a.oldSpace != a.newSpace
  {
    a.(ops := AlteredOps(PairOf(Created(w, a), a), a.ops))
  }

  function Dicts(ops: seq<Op>): set<nat>
  {
    if ops == [] then {} else Dicts(ops[..|ops| - 1]) + if ops[|ops| - 1].ModifySpace? then {ops[|ops| - 1].newDict} else {}
  }

  /** `alter_space_rollback`; then the new version is deleted, with the indexes it has, and the dictionaries of the operations. */
  function Rollback(w: World, a: Alter): World
    requires a.oldSpace in w.spaces && a.newSpace in w.spaces
  {
    var p := SwapRest(RollbackAll(PairOf(w, a), a.ops));
    var w1 := WithPair(w, a, p).(cache := a.oldSpace);
    w1.(spaces := w1.spaces - {a.newSpace}, defs := w1.defs - p.n.index.Values, names := w1.names - Dicts(a.ops))
  }

  /** The version `x` is deleted, with the indexes it has, and so are some dictionaries. */
  function Forget(w: World, x: nat, dicts: set<nat>): World
    requires x in w.spaces
  {
    w.(spaces := w.spaces - {x}, defs := w.defs - w.spaces[x].index.Values, names := w.names - dicts)
  }

  /** `alter_space_commit`: the old version is deleted, and the dictionaries of the operations. */
  function Commit(w: World, a: Alter): World
    requires a.oldSpace in w.spaces
  {
    Forget(w, a.oldSpace, Dicts(a.ops))
  }

  // ---------------------------------------------------------------------------
  // Maps
  // ---------------------------------------------------------------------------

  lemma PutComm<K, V>(m: map<K, V>, j: K, k: K, v: Option<V>, w: Option<V>)
    requires j != k
    ensures Put(Put(m, j, v), k, w) == Put(Put(m, k, w), j, v)
  {
    assert forall x :: x in Put(Put(m, j, v), k, w) <==> x in Put(Put(m, k, w), j, v);
  }

  lemma PutTwice<K, V>(m: map<K, V>, k: K, v: Option<V>, w: Option<V>)
    ensures Put(Put(m, k, v), k, w) == Put(m, k, w)
  {
    assert forall x :: x in Put(Put(m, k, v), k, w) <==> x in Put(m, k, w);
  }

  lemma PutBack<K, V>(m: map<K, V>, k: K)
    ensures Put(m, k, At(m, k)) == m
  {
    assert forall x :: x in Put(m, k, At(m, k)) <==> x in m;
  }

  lemma SwapTwice<V>(m: map<nat, V>, a: nat, b: nat)
    ensures SwapValues(SwapValues(m, a, b), b, a) == m && SwapValues(SwapValues(m, a, b), a, b) == m
  {
    var m1 := SwapValues(m, a, b);
    assert forall x :: At(m1, x) == if x == b then At(m, a) else if x == a then At(m, b) else At(m, x);
    var m2, m3 := SwapValues(m1, b, a), SwapValues(m1, a, b);
    assert forall x :: At(m2, x) == At(m, x) && At(m3, x) == At(m, x);
    SameMap(m2, m);
    SameMap(m3, m);
  }

  lemma SameMap<K, V>(m: map<K, V>, n: map<K, V>)
    requires forall x :: At(m, x) == At(n, x)
    ensures m == n
  {
    forall x ensures x in m <==> x in n && (x in m ==> m[x] == n[x]) { assert At(m, x) == At(n, x); }
  }

  lemma SwapComm<V>(m: map<nat, V>, a: nat, b: nat, c: nat, d: nat)
    requires {a, b} !! {c, d}
    ensures SwapValues(SwapValues(m, a, b), c, d) == SwapValues(SwapValues(m, c, d), a, b)
  {
    var m1, m2 := SwapValues(SwapValues(m, a, b), c, d), SwapValues(SwapValues(m, c, d), a, b);
    forall x ensures At(m1, x) == At(m2, x) { }
    SameMap(m1, m2);
  }

  lemma SwapIndexTwice(p: Pair, iid: nat)
    ensures SwapIndex(SwapIndex(p, iid), iid) == p
  {
    PutTwice(p.o.index, iid, At(p.n.index, iid), At(p.o.index, iid));
    PutTwice(p.n.index, iid, At(p.o.index, iid), At(p.n.index, iid));
    PutBack(p.o.index, iid);
    PutBack(p.n.index, iid);
  }

  lemma SwapIndexComm(p: Pair, i: nat, j: nat)
    requires i != j
    ensures SwapIndex(SwapIndex(p, i), j) == SwapIndex(SwapIndex(p, j), i)
  {
    PutComm(p.o.index, i, j, At(p.n.index, i), At(p.n.index, j));
    PutComm(p.n.index, i, j, At(p.o.index, i), At(p.o.index, j));
  }

  // ---------------------------------------------------------------------------
  // Undoing one operation
  // ---------------------------------------------------------------------------

  /** `RollbackPair` as it looks before triggers, foreign keys and constraint names change places. */
  function Undo(p: Pair, op: Op): Pair
  {
    match op
    case CreateConstraintID(name, id) => p.(o := p.o.(ids := p.o.ids - {name}))
    case DropConstraintID(name, oldId) => p.(o := p.o.(ids := p.o.ids[name := oldId]))
    case _ => RollbackPair(p, op)
  }

  function UndoAll(p: Pair, ops: seq<Op>): Pair
  {
    if ops == [] then p else Undo(UndoAll(p, ops[..|ops| - 1]), ops[|ops| - 1])
  }

  lemma UndoSwapped(p: Pair, op: Op)
    ensures RollbackPair(SwapRest(p), op) == SwapRest(Undo(p, op))
  {
  }

  lemma {:induction false} UndoAllSwapped(p: Pair, ops: seq<Op>)
    ensures RollbackAll(SwapRest(p), ops) == SwapRest(UndoAll(p, ops))
  {
    if ops != [] {
      UndoAllSwapped(p, ops[..|ops| - 1]);
      UndoSwapped(UndoAll(p, ops[..|ops| - 1]), ops[|ops| - 1]);
    }
  }

  /** What the operations of a list rely on, of the versions as they are before the alter. */
  ghost predicate OpOK(p: Pair, op: Op)
  {
    match op
    case ModifySpace(newDict) => newDict != p.n.dict
    case ModifyIndex(iid, oldIndex, newIndex) => At(p.o.index, iid) == Some(oldIndex) && iid in p.n.index && p.n.index[iid] != oldIndex
    case CreateConstraintID(name, id) => name !in p.o.ids
    case DropConstraintID(name, oldId) => name in p.o.ids
    case _ => true
  }

  /** An operation is undone by its rollback. */
  lemma UndoIsInverse(p: Pair, op: Op)
    requires OpOK(p, op)
    ensures Undo(AlterPair(p, op), AlterOp(p, op)) == p
  {
    match op {
      case ModifySpace(newDict) => SwapTwice(p.names, p.n.dict, newDict);
      case MoveIndex(iid) => SwapIndexTwice(p, iid);
      case ModifyIndex(iid, oldIndex, newIndex) =>
        SwapIndexTwice(p, iid);
        SwapTwice(p.defs, oldIndex, p.n.index[iid]);
      case CreateConstraintID(name, id) => assert p.o.ids[name := id] - {name} == p.o.ids;
      case DropConstraintID(name, oldId) => assert (p.o.ids - {name})[name := p.o.ids[name]] == p.o.ids;
      case _ =>
    }
  }

  // ---------------------------------------------------------------------------
  // Operations that do not meet
  // ---------------------------------------------------------------------------

  /** The part of the versions that an operation changes. */
  datatype Part = Slot(iid: nat) | CkPart | DictPart | IdPart(name: string) | NoPart

  function PartOf(op: Op): Part
  {
    match op
    case ModifySpace(newDict) => DictPart
    case MoveIndex(iid) => Slot(iid)
    case ModifyIndex(iid, oldIndex, newIndex) => Slot(iid)
    case RebuildCkConstraints(list) => CkPart
    case MoveCkConstraints => CkPart
    case CreateConstraintID(name, id) => IdPart(name)
    case DropConstraintID(name, oldId) => IdPart(name)
    case _ => NoPart
  }

  predicate Apart(a: Op, b: Op)
  {
    PartOf(a) == NoPart || PartOf(b) == NoPart || PartOf(a) != PartOf(b)
  }

  /** The index objects whose definitions a done operation has exchanged. */
  function Objects(op: Op): set<nat>
  {
    if op.ModifyIndex? then {op.oldIndex, op.newIndex} else {}
  }

  lemma UndoKeepsSlot(p: Pair, a: Op, iid: nat)
    requires PartOf(a) != Slot(iid)
    ensures At(Undo(p, a).n.index, iid) == At(p.n.index, iid) && At(Undo(p, a).o.index, iid) == At(p.o.index, iid)
  {
  }

  lemma AlterKeepsSlot(p: Pair, a: Op, iid: nat)
    requires PartOf(a) != Slot(iid)
    ensures At(AlterPair(p, a).n.index, iid) == At(p.n.index, iid) && At(AlterPair(p, a).o.index, iid) == At(p.o.index, iid)
  {
  }

  /** Undoing one operation and doing another can change places. */
  lemma Commute(p: Pair, a: Op, b: Op)
    requires Apart(a, b) && (b.ModifyIndex? ==> b.iid in p.n.index && Objects(a) !! {b.oldIndex, p.n.index[b.iid]})
    ensures Undo(AlterPair(p, b), a) == AlterPair(Undo(p, a), b)
  {
    if PartOf(a).Slot? && PartOf(b).Slot? {
      CommuteSlots(p, a, b);
    } else if PartOf(a).IdPart? && PartOf(b).IdPart? {
      CommuteIds(p, a, b);
    } else if PartOf(a).Slot? {
      CommuteOther(p, a, b);
    } else {
      CommuteRest(p, a, b);
    }
  }

  lemma CommuteSlots(p: Pair, a: Op, b: Op)
    requires PartOf(a).Slot? && PartOf(b).Slot? && a.iid != b.iid
    requires b.ModifyIndex? ==> b.iid in p.n.index && Objects(a) !! {b.oldIndex, p.n.index[b.iid]}
    ensures Undo(AlterPair(p, b), a) == AlterPair(Undo(p, a), b)
  {
    SwapIndexComm(p, a.iid, b.iid);
    if a.ModifyIndex? && b.ModifyIndex? {
      SwapComm(p.defs, a.newIndex, a.oldIndex, b.oldIndex, p.n.index[b.iid]);
    }
  }

  lemma CommuteIds(p: Pair, a: Op, b: Op)
    requires PartOf(a).IdPart? && PartOf(b).IdPart? && a.name != b.name
    ensures Undo(AlterPair(p, b), a) == AlterPair(Undo(p, a), b)
  {
    var i, j := Undo(AlterPair(p, b), a).o.ids, AlterPair(Undo(p, a), b).o.ids;
    forall x ensures At(i, x) == At(j, x) { }
    SameMap(i, j);
  }

  lemma CommuteOther(p: Pair, a: Op, b: Op)
    requires PartOf(a).Slot? && !PartOf(b).Slot?
    ensures Undo(AlterPair(p, b), a) == AlterPair(Undo(p, a), b)
  {
  }

  lemma CommuteRest(p: Pair, a: Op, b: Op)
    requires !PartOf(a).Slot? && Apart(a, b) && !(PartOf(a).IdPart? && PartOf(b).IdPart?)
    ensures Undo(AlterPair(p, b), a) == AlterPair(Undo(p, a), b)
  {
  }

  /** The operations change different parts. */
  ghost predicate AllApart(ops: seq<Op>)
  {
    forall i, j | 0 <= i < j < |ops| :: Apart(ops[i], ops[j])
  }

  /** All indexes of the two versions are different objects. */
  ghost predicate Separate(p: Pair)
  {
    && (forall i, j | i in p.o.index && j in p.o.index && i != j :: p.o.index[i] != p.o.index[j])
    && (forall i, j | i in p.n.index && j in p.n.index && i != j :: p.n.index[i] != p.n.index[j])
    && (forall i, j | i in p.o.index && j in p.n.index :: p.o.index[i] != p.n.index[j])
  }

  /** A list that the triggers may build for the versions `p`. */
  ghost predicate ListOK(p: Pair, ops: seq<Op>)
  {
    AllApart(ops) && Separate(p) && forall k | 0 <= k < |ops| :: OpOK(p, ops[k])
  }

  lemma {:induction false} AlteredShape(p: Pair, ops: seq<Op>)
    ensures |AlteredOps(p, ops)| == |ops|
    ensures forall k | 0 <= k < |ops| :: PartOf(AlteredOps(p, ops)[k]) == PartOf(ops[k])
  {
    if ops != [] { AlteredShape(p, ops[..|ops| - 1]); }
  }

  /** A list leaves the parts alone that none of its operations changes. */
  lemma {:induction false} AllKeep(p: Pair, ops: seq<Op>, b: Op)
    requires forall k | 0 <= k < |ops| :: Apart(ops[k], b)
    ensures PartOf(b).Slot? ==> At(AlterAll(p, ops).n.index, b.iid) == At(p.n.index, b.iid) && At(AlterAll(p, ops).o.index, b.iid) == At(p.o.index, b.iid)
    ensures AlterOp(AlterAll(p, ops), b) == AlterOp(p, b)
  {
    if ops != [] {
      AllKeep(p, ops[..|ops| - 1], b);
      assert Apart(ops[|ops| - 1], b);
      if PartOf(b).Slot? { AlterKeepsSlot(AlterAll(p, ops[..|ops| - 1]), ops[|ops| - 1], b.iid); }
    }
  }

  /** An operation remembers what it would remember if it came first. */
  lemma {:induction false} AlteredIs(p: Pair, ops: seq<Op>, k: nat)
    requires AllApart(ops) && k < |ops|
    ensures |AlteredOps(p, ops)| == |ops| && AlteredOps(p, ops)[k] == AlterOp(p, ops[k])
  {
    AlteredShape(p, ops);
    var n := |ops| - 1;
    AlteredShape(p, ops[..n]);
    if k == n {
      forall j | 0 <= j < n ensures Apart(ops[..n][j], ops[n]) { assert Apart(ops[j], ops[n]); }
      AllKeep(p, ops[..n], ops[n]);
    } else {
      AlteredIs(p, ops[..n], k);
    }
  }

  /** Doing an operation can wait until other operations have been undone. */
  lemma {:induction false} UndoPast(p: Pair, done: seq<Op>, b: Op)
    requires forall k | 0 <= k < |done| :: Apart(done[k], b)
    requires b.ModifyIndex? ==> b.iid in p.n.index && forall k | 0 <= k < |done| :: Objects(done[k]) !! {b.oldIndex, p.n.index[b.iid]}
    ensures UndoAll(AlterPair(p, b), done) == AlterPair(UndoAll(p, done), b)
    ensures PartOf(b).Slot? ==> At(UndoAll(p, done).n.index, b.iid) == At(p.n.index, b.iid)
  {
    if done != [] {
      var n := |done| - 1;
      UndoPast(p, done[..n], b);
      assert Apart(done[n], b);
      if PartOf(b).Slot? { UndoKeepsSlot(UndoAll(p, done[..n]), done[n], b.iid); }
      Commute(UndoAll(p, done[..n]), done[n], b);
    }
  }

  /** Undoing all operations in the order in which they were done undoes the list. */
  lemma {:induction false} UndoAllIsInverse(p: Pair, ops: seq<Op>)
    requires ListOK(p, ops)
    ensures UndoAll(AlterAll(p, ops), AlteredOps(p, ops)) == p
  {
    if ops != [] {
      var n := |ops| - 1;
      var first, last := ops[..n], ops[n];
      var done := AlteredOps(p, first);
      AlteredShape(p, first);
      AlteredIs(p, ops, n);
      assert AlteredOps(p, ops)[..n] == done;
      UndoAllIsInverse(p, first);
      LastIsApart(p, ops);
      UndoPast(AlterAll(p, first), done, last);
      UndoIsInverse(p, last);
    }
  }

  lemma LastIsApart(p: Pair, ops: seq<Op>)
    requires ListOK(p, ops) && ops != []
    ensures var n := |ops| - 1;
            var done := AlteredOps(p, ops[..n]);
            && |done| == n && (forall k | 0 <= k < n :: Apart(done[k], ops[n]))
            && (ops[n].ModifyIndex? ==>
                  && ops[n].iid in AlterAll(p, ops[..n]).n.index
                  && forall k | 0 <= k < n :: Objects(done[k]) !! {ops[n].oldIndex, AlterAll(p, ops[..n]).n.index[ops[n].iid]})
  {
    var n := |ops| - 1;
    var first, last := ops[..n], ops[n];
    AlteredShape(p, first);
    forall k | 0 <= k < n ensures Apart(first[k], last) { assert Apart(ops[k], ops[n]); }
    AllKeep(p, first, last);
    assert OpOK(p, last);
    forall k: nat | k < n && last.ModifyIndex? ensures Objects(AlteredOps(p, first)[k]) !! {last.oldIndex, p.n.index[last.iid]} {
      AlteredIs(p, first, k);
      assert OpOK(p, ops[k]) && Apart(ops[k], last);
    }
  }

  // ---------------------------------------------------------------------------
  // Rollback is the inverse of do
  // ---------------------------------------------------------------------------

  /** An alter that may be started: new objects are new, and the list suits the two versions. */
  ghost predicate Startable(w: World, a: Alter)
  {
    && w.cache == a.oldSpace && a.oldSpace in w.spaces && a.newSpace !in w.spaces
    && a.newDefs.Keys !! w.defs.Keys && a.newNames.Keys !! w.names.Keys
    && a.blank.index.Values == a.newDefs.Keys && Dicts(a.ops) == a.newNames.Keys
    && w.spaces[a.oldSpace].index.Values <= w.defs.Keys && a.blank.dict in w.names
    && (forall i, j | i in a.blank.index && j in a.blank.index && i != j :: a.blank.index[i] != a.blank.index[j])
    && (forall i, j | i in w.spaces[a.oldSpace].index && j in w.spaces[a.oldSpace].index && i != j :: w.spaces[a.oldSpace].index[i] != w.spaces[a.oldSpace].index[j])
    && AllApart(a.ops) && forall k | 0 <= k < |a.ops| :: OpOK(PairOf(Created(w, a), a), a.ops[k])
  }

  /** The rollback restores the two versions as they were after the new one was created. */
  lemma PairRestored(w: World, a: Alter)
    requires Startable(w, a)
    ensures a.oldSpace in Do(w, a).spaces && a.newSpace in Do(w, a).spaces
    ensures SwapRest(RollbackAll(PairOf(Do(w, a), a), AlteredOps(PairOf(Created(w, a), a), a.ops))) == PairOf(Created(w, a), a)
  {
    var p := PairOf(Created(w, a), a);
    assert Separate(p) by { CreatedIsSeparate(w, a); }
    UndoAllIsInverse(p, a.ops);
    assert PairOf(Do(w, a), a) == SwapRest(AlterAll(p, a.ops));
    UndoAllSwapped(AlterAll(p, a.ops), AlteredOps(p, a.ops));
    SwapRestTwice(p);
  }

  lemma SwapRestTwice(p: Pair)
    ensures SwapRest(SwapRest(p)) == p
  {
  }

  lemma CreatedIsSeparate(w: World, a: Alter)
    requires Startable(w, a)
    ensures Separate(PairOf(Created(w, a), a))
  {
    var p := PairOf(Created(w, a), a);
    forall i, j | i in p.o.index && j in p.n.index ensures p.o.index[i] != p.n.index[j] {
      assert p.o.index[i] in w.spaces[a.oldSpace].index.Values && p.n.index[j] in a.blank.index.Values;
    }
  }

  /** Deleting the new version removes what was created for it. */
  lemma CleanedUp(w: World, a: Alter)
    requires Startable(w, a)
    ensures w.defs + a.newDefs - a.blank.index.Values == w.defs && w.names + a.newNames - Dicts(a.ops) == w.names
  {
  }

  /**
   Rolling back an alter restores the world that it found, in every detail but the
   schema version: the cached version, its indexes and their definitions, its triggers,
   foreign keys, checks and constraint names, and the field names of its dictionary; and
   nothing that was created for the new version is left.
   */
  lemma RollbackIsInverse(w: World, a: Alter)
    requires Startable(w, a)
    ensures a.oldSpace in Do(w, a).spaces && a.newSpace in Do(w, a).spaces
    ensures Rollback(Do(w, a), Done(w, a)) == w.(version := w.version + Versions(a.ops))
  {
    PairRestored(w, a);
    DictsStay(PairOf(Created(w, a), a), a.ops);
    CreatedPair(w, a);
    SpacesRestored(w, a);
    CleanedUp(w, a);
  }

  lemma CreatedPair(w: World, a: Alter)
    requires Startable(w, a)
    ensures PairOf(Created(w, a), a) == Pair(w.spaces[a.oldSpace], a.blank, w.defs + a.newDefs, w.names + a.newNames)
  {
  }

  /** The spaces of the world when both versions are as they were and the new one is deleted. */
  lemma SpacesRestored(w: World, a: Alter)
    requires Startable(w, a)
    ensures Do(w, a).spaces[a.oldSpace := w.spaces[a.oldSpace]][a.newSpace := a.blank] - {a.newSpace} == w.spaces
  {
    var s := Do(w, a).spaces;
    assert s.Keys == w.spaces.Keys + {a.newSpace};
    assert forall x | x in w.spaces && x != a.oldSpace :: s[x] == w.spaces[x];
  }

  lemma {:induction false} DictsStay(p: Pair, ops: seq<Op>)
    ensures Dicts(AlteredOps(p, ops)) == Dicts(ops)
  {
    if ops != [] {
      var n := |ops| - 1;
      DictsStay(p, ops[..n]);
      AlteredShape(p, ops[..n]);
      assert AlteredOps(p, ops)[..n] == AlteredOps(p, ops[..n]);
    }
  }

  // ---------------------------------------------------------------------------
  // Stacks of alters
  // ---------------------------------------------------------------------------

  /** The alters can be done one after the other. */
  ghost predicate StackOK(w: World, alters: seq<Alter>)
    decreases |alters|
  {
    alters != [] ==> Startable(w, alters[0]) && StackOK(Do(w, alters[0]), alters[1..])
  }

  ghost function DoStack(w: World, alters: seq<Alter>): World
    requires StackOK(w, alters)
    decreases |alters|
  {
    if alters == [] then w else DoStack(Do(w, alters[0]), alters[1..])
  }

  /** Apart from the schema version, the worlds are the same. */
  ghost predicate SameWorld(v: World, w: World)
  {
    v == w.(version := v.version)
  }

  /** `v` comes out of `w` when the alters, as they were left, are rolled back, the last first. */
  ghost predicate RolledBack(w0: World, w: World, alters: seq<Alter>, v: World)
    requires StackOK(w0, alters)
    decreases |alters|
  {
    if alters == [] then v == w
    else
      exists u :: RolledBack(Do(w0, alters[0]), w, alters[1..], u) && RollsBack(u, Done(w0, alters[0]), v)
  }

  ghost predicate RollsBack(u: World, a: Alter, v: World)
  {
    a.oldSpace in u.spaces && a.newSpace in u.spaces && v == Rollback(u, a)
  }

  /** Any stack of alters that is rolled back last-first leaves the world it started from. */
  lemma {:induction false} StackRollback(w0: World, w: World, alters: seq<Alter>, v: World)
    requires StackOK(w0, alters) && SameWorld(w, DoStack(w0, alters)) && RolledBack(w0, w, alters, v)
    ensures SameWorld(v, w0)
    decreases |alters|
  {
    if alters != [] {
      var a := alters[0];
      var u :| RolledBack(Do(w0, a), w, alters[1..], u) && RollsBack(u, Done(w0, a), v);
      StackRollback(Do(w0, a), w, alters[1..], u);
      RollbackIsInverse(w0, a);
      RollbackIgnoresVersion(u, Do(w0, a), Done(w0, a));
    }
  }

  lemma RollbackIgnoresVersion(u: World, w: World, a: Alter)
    requires SameWorld(u, w) && a.oldSpace in w.spaces && a.newSpace in w.spaces
    ensures SameWorld(Rollback(u, a), Rollback(w, a))
  {
    assert PairOf(u, a) == PairOf(w, a);
  }

  /** And it can be rolled back. */
  lemma {:induction false} StackCanRollBack(w0: World, w: World, alters: seq<Alter>) returns (v: World)
    requires StackOK(w0, alters) && SameWorld(w, DoStack(w0, alters))
    ensures RolledBack(w0, w, alters, v)
    decreases |alters|
  {
    if alters == [] {
      v := w;
    } else {
      var a := alters[0];
      var u := StackCanRollBack(Do(w0, a), w, alters[1..]);
      StackRollback(Do(w0, a), w, alters[1..], u);
      RollbackIsInverse(w0, a);
      v := Rollback(u, Done(w0, a));
      assert RollsBack(u, Done(w0, a), v);
    }
  }

  // ---------------------------------------------------------------------------
  // What doing an alter moves
  // ---------------------------------------------------------------------------

  /** Operations that change the slot are apart from all others. */
  lemma {:induction false} SlotAfter(p: Pair, ops: seq<Op>, k: nat)
    requires ListOK(p, ops) && k < |ops| && PartOf(ops[k]).Slot?
    ensures At(AlterAll(p, ops).n.index, ops[k].iid) == At(p.o.index, ops[k].iid)
    ensures At(AlterAll(p, ops).o.index, ops[k].iid) == At(p.n.index, ops[k].iid)
  {
    var n := |ops| - 1;
    var first := ops[..n];
    if k < n {
      SlotAfter(p, first, k);
      assert Apart(ops[k], ops[n]);
      AlterKeepsSlot(AlterAll(p, first), ops[n], ops[k].iid);
    } else {
      forall j | 0 <= j < n ensures Apart(first[j], ops[n]) { assert Apart(ops[j], ops[n]); }
      AllKeep(p, first, ops[n]);
      assert OpOK(p, ops[n]);
    }
  }

  /** A moved or modified index keeps its identity: the new version has the very index that the old one had. */
  lemma MovedIndexStays(w: World, a: Alter, k: nat)
    requires Startable(w, a) && k < |a.ops| && PartOf(a.ops[k]).Slot?
    ensures a.newSpace in Do(w, a).spaces
    ensures At(Do(w, a).spaces[a.newSpace].index, a.ops[k].iid) == At(w.spaces[a.oldSpace].index, a.ops[k].iid)
  {
    CreatedIsSeparate(w, a);
    SlotAfter(PairOf(Created(w, a), a), a.ops, k);
  }

  /** The constraint names that a list leaves: those it makes are added and those it drops go, in list order. */
  function IdsAfter(ids: map<string, int>, ops: seq<Op>): map<string, int>
  {
    if ops == [] then ids else IdsAfterOne(IdsAfter(ids, ops[..|ops| - 1]), ops[|ops| - 1])
  }

  function IdsAfterOne(ids: map<string, int>, op: Op): map<string, int>
  {
    match op
    case CreateConstraintID(name, id) => ids[name := id]
    case DropConstraintID(name, _) => ids - {name}
    case _ => ids
  }

  lemma OpLeavesRest(p: Pair, op: Op)
    ensures var q := AlterPair(p, op);
            && q.o.triggers == p.o.triggers && q.o.childFk == p.o.childFk && q.o.parentFk == p.o.parentFk && q.o.fkMask == p.o.fkMask
            && q.o.ids == IdsAfterOne(p.o.ids, op)
  {
  }

  lemma {:induction false} RestStays(p: Pair, ops: seq<Op>)
    ensures var q := AlterAll(p, ops);
            && q.o.triggers == p.o.triggers && q.o.childFk == p.o.childFk && q.o.parentFk == p.o.parentFk && q.o.fkMask == p.o.fkMask
            && q.o.ids == IdsAfter(p.o.ids, ops)
  {
    if ops != [] {
      RestStays(p, ops[..|ops| - 1]);
      OpLeavesRest(AlterAll(p, ops[..|ops| - 1]), ops[|ops| - 1]);
    }
  }

  /** The new version takes over triggers and foreign keys, and the constraint names that the list leaves. */
  lemma RestIsTakenOver(w: World, a: Alter)
    requires Startable(w, a)
    ensures var o, n := w.spaces[a.oldSpace], Do(w, a).spaces[a.newSpace];
            && n.triggers == o.triggers && n.childFk == o.childFk && n.parentFk == o.parentFk && n.fkMask == o.fkMask
            && n.ids == IdsAfter(o.ids, a.ops)
    ensures Do(w, a).cache == a.newSpace
  {
    RestStays(PairOf(Created(w, a), a), a.ops);
  }

  lemma {:induction false} DefAfter(p: Pair, ops: seq<Op>, k: nat)
    requires ListOK(p, ops) && k < |ops| && ops[k].ModifyIndex?
    ensures At(AlterAll(p, ops).defs, ops[k].oldIndex) == At(p.defs, p.n.index[ops[k].iid])
  {
    var n := |ops| - 1;
    var first := ops[..n];
    assert OpOK(p, ops[k]) && OpOK(p, ops[n]);
    forall j | 0 <= j < n ensures Apart(first[j], ops[n]) { assert Apart(ops[j], ops[n]); }
    AllKeep(p, first, ops[n]);
    if k < n {
      DefAfter(p, first, k);
      assert Apart(ops[k], ops[n]);
    } else {
      DefBefore(p, first, ops[n]);
    }
  }

  /** Other operations leave the definitions of these two indexes alone. */
  lemma {:induction false} DefBefore(p: Pair, ops: seq<Op>, b: Op)
    requires ListOK(p, ops) && b.ModifyIndex? && OpOK(p, b) && forall j | 0 <= j < |ops| :: Apart(ops[j], b)
    ensures At(AlterAll(p, ops).defs, b.oldIndex) == At(p.defs, b.oldIndex)
    ensures At(AlterAll(p, ops).defs, p.n.index[b.iid]) == At(p.defs, p.n.index[b.iid])
  {
    if ops != [] {
      var n := |ops| - 1;
      DefBefore(p, ops[..n], b);
      assert OpOK(p, ops[n]) && Apart(ops[n], b);
      forall j | 0 <= j < n ensures Apart(ops[..n][j], ops[n]) { assert Apart(ops[j], ops[n]); }
      AllKeep(p, ops[..n], ops[n]);
    }
  }

  /** A modified index has its new definition. */
  lemma ModifiedIndexIsRedefined(w: World, a: Alter, k: nat)
    requires Startable(w, a) && k < |a.ops| && a.ops[k].ModifyIndex?
    ensures a.ops[k].iid in a.blank.index && a.blank.index[a.ops[k].iid] in a.newDefs
    ensures At(Do(w, a).defs, a.ops[k].oldIndex) == Some(a.newDefs[a.blank.index[a.ops[k].iid]])
  {
    CreatedIsSeparate(w, a);
    var p := PairOf(Created(w, a), a);
    assert OpOK(p, a.ops[k]);
    assert a.blank.index[a.ops[k].iid] in a.blank.index.Values;
    DefAfter(p, a.ops, k);
  }

  // ---------------------------------------------------------------------------
  // The engine
  // ---------------------------------------------------------------------------

  class Engine {
    var cache: nat
    var spaces: map<nat, Space>
    var defs: map<nat, int>
    var names: map<nat, seq<string>>
    var schemaVersion: nat

    function View(): World
      reads this
    {
      World(cache, spaces, defs, names, schemaVersion)
    }

    constructor ()
      ensures View() == World(0, map[], map[], map[], 0)
    {
      cache, spaces, defs, names, schemaVersion := 0, map[], map[], map[], 0;
    }

    predicate Both(a: Alter)
      reads this
    {
      a.oldSpace in spaces && a.newSpace in spaces && a.oldSpace != a.newSpace
    }

    /** Exchange the indexes of the two versions in one slot. */
    method SwapSlots(a: Alter, iid: nat)
      requires Both(a)
      modifies this`spaces
      ensures Both(a) && View() == WithPair(old(View()), a, SwapIndex(PairOf(old(View()), a), iid))
    {
      var o, n := spaces[a.oldSpace], spaces[a.newSpace];
      spaces := spaces[a.oldSpace := o.(index := Put(o.index, iid, At(n.index, iid)))];
      spaces := spaces[a.newSpace := n.(index := Put(n.index, iid, At(o.index, iid)))];
    }

    /** Exchange checks and their trigger; the new version gets the checks `list`. */
    method SwapChecks(a: Alter, from: nat, to: nat, list: seq<int>)
      requires Both(a) && {from, to} == {a.oldSpace, a.newSpace}
      modifies this`spaces
      ensures Both(a) && spaces == old(spaces)[from := old(spaces)[from].(ck := old(spaces)[to].ck, ckTrigger := old(spaces)[to].ckTrigger)]
                                               [to := old(spaces)[to].(ck := list, ckTrigger := old(spaces)[from].ckTrigger)]
    {
      var f, t := spaces[from], spaces[to];
      spaces := spaces[from := f.(ck := t.ck, ckTrigger := t.ckTrigger)][to := t.(ck := list, ckTrigger := f.ckTrigger)];
    }

    /** Take or free a constraint name of the old version. */
    method AlterId(a: Alter, op: Op) returns (op': Op)
      requires Both(a) && PartOf(op).IdPart?
      modifies this`spaces
      ensures Both(a) && op' == AlterOp(PairOf(old(View()), a), op)
      ensures View() == WithPair(old(View()), a, AlterPair(PairOf(old(View()), a), op))
    {
      op' := op;
      var o := spaces[a.oldSpace];
      assert spaces[a.newSpace := spaces[a.newSpace]] == spaces;
      match op {
        case CreateConstraintID(name, id) =>
          spaces := spaces[a.oldSpace := o.(ids := o.ids[name := id])];
        case DropConstraintID(name, _) =>
          if name in o.ids { op' := DropConstraintID(name, o.ids[name]); }
          spaces := spaces[a.oldSpace := o.(ids := o.ids - {name})];
      }
    }

    /** Free a name that was taken in the new version, or take back one that was freed. */
    method RollbackId(a: Alter, op: Op)
      requires Both(a) && PartOf(op).IdPart?
      modifies this`spaces
      ensures Both(a) && View() == WithPair(old(View()), a, RollbackPair(PairOf(old(View()), a), op))
    {
      var n := spaces[a.newSpace];
      assert spaces[a.oldSpace := spaces[a.oldSpace]] == spaces;
      match op {
        case CreateConstraintID(name, _) =>
          spaces := spaces[a.newSpace := n.(ids := n.ids - {name})];
        case DropConstraintID(name, oldId) =>
          spaces := spaces[a.newSpace := n.(ids := n.ids[name := oldId])];
      }
    }

    /** The `alter` phase of one operation. */
    method AlterStep(a: Alter, op: Op) returns (op': Op)
      requires Both(a)
      modifies this`spaces, this`defs, this`names, this`schemaVersion
      ensures Both(a) && op' == AlterOp(PairOf(old(View()), a), op)
      ensures View() == WithPair(old(View()), a, AlterPair(PairOf(old(View()), a), op)).(version := old(schemaVersion) + Versions([op]))
    {
      op' := op;
      var o, n := spaces[a.oldSpace], spaces[a.newSpace];
      assert spaces[a.oldSpace := o][a.newSpace := n] == spaces;
      assert [op][..0] == [];
      match op {
        case ModifySpace(newDict) =>
          names := SwapValues(names, n.dict, newDict);
        case MoveIndex(iid) =>
          SwapSlots(a, iid);
        case ModifyIndex(iid, oldIndex, _) =>
          if iid in n.index {
            SwapSlots(a, iid);
            defs := SwapValues(defs, oldIndex, n.index[iid]);
            op' := ModifyIndex(iid, n.index[iid], oldIndex);
          }
        case UpdateSchemaVersion =>
          schemaVersion := schemaVersion + 1;
        case RebuildCkConstraints(list) =>
          SwapChecks(a, a.oldSpace, a.newSpace, list);
          op' := RebuildCkConstraints(o.ck);
        case MoveCkConstraints =>
          SwapChecks(a, a.oldSpace, a.newSpace, o.ck);
        case CreateConstraintID(_, _) =>
          op' := AlterId(a, op);
        case DropConstraintID(_, _) =>
          op' := AlterId(a, op);
        case _ =>
      }
    }

    /** The `rollback` phase of one operation. */
    method RollbackStep(a: Alter, op: Op)
      requires Both(a)
      modifies this`spaces, this`defs, this`names
      ensures Both(a) && View() == WithPair(old(View()), a, RollbackPair(PairOf(old(View()), a), op))
    {
      var o, n := spaces[a.oldSpace], spaces[a.newSpace];
      assert spaces[a.oldSpace := o][a.newSpace := n] == spaces;
      match op {
        case ModifySpace(newDict) =>
          names := SwapValues(names, n.dict, newDict);
        case MoveIndex(iid) =>
          SwapSlots(a, iid);
        case ModifyIndex(iid, oldIndex, newIndex) =>
          SwapSlots(a, iid);
          defs := SwapValues(defs, newIndex, oldIndex);
        case RebuildCkConstraints(list) =>
          SwapChecks(a, a.newSpace, a.oldSpace, list);
        case MoveCkConstraints =>
          SwapChecks(a, a.newSpace, a.oldSpace, n.ck);
        case CreateConstraintID(_, _) =>
          RollbackId(a, op);
        case DropConstraintID(_, _) =>
          RollbackId(a, op);
        case _ =>
      }
    }

    /** Exchange triggers, foreign keys and constraint names. */
    method SwapTheRest(a: Alter)
      requires Both(a)
      modifies this`spaces
      ensures Both(a) && View() == WithPair(old(View()), a, SwapRest(PairOf(old(View()), a)))
    {
      var o, n := spaces[a.oldSpace], spaces[a.newSpace];
      var p := SwapRest(Pair(o, n, map[], map[]));
      spaces := spaces[a.oldSpace := p.o][a.newSpace := p.n];
    }

    /** `alter_space_do`: create the new version, run the operations, put the new version into the cache. */
    method AlterSpaceDo(a: Alter) returns (a': Alter)
      requires a.oldSpace in spaces && a.oldSpace != a.newSpace
      modifies this
      ensures View() == Do(old(View()), a) && a' == Done(old(View()), a)
    {
      ghost var w := View();
      spaces, defs, names := spaces[a.newSpace := a.blank], defs + a.newDefs, names + a.newNames;
      ghost var w1, p := View(), PairOf(View(), a);
      assert w1 == Created(w, a);
      var ops := AlterSteps(a);
      WithPairTwice(w1, a, AlterAll(p, a.ops), SwapRest(AlterAll(p, a.ops)));
      SwapTheRest(a);
      cache := a.newSpace;
      a' := a.(ops := ops);
    }

    /** The `alter` phase of all operations, in list order. */
    method AlterSteps(a: Alter) returns (ops: seq<Op>)
      requires Both(a)
      modifies this`spaces, this`defs, this`names, this`schemaVersion
      ensures Both(a) && ops == AlteredOps(PairOf(old(View()), a), a.ops)
      ensures View() == WithPair(old(View()), a, AlterAll(PairOf(old(View()), a), a.ops)).(version := old(View()).version + Versions(a.ops))
    {
      ghost var w1, p := View(), PairOf(View(), a);
      assert w1.spaces[a.oldSpace := p.o][a.newSpace := p.n] == w1.spaces;
      ops := [];
      var k := 0;
      while k < |a.ops|
        invariant 0 <= k <= |a.ops| && Both(a) && ops == AlteredOps(p, a.ops[..k])
        invariant View() == WithPair(w1, a, AlterAll(p, a.ops[..k])).(version := w1.version + Versions(a.ops[..k]))
      {
        assert a.ops[..k + 1][..k] == a.ops[..k];
        assert PairOf(View(), a) == AlterAll(p, a.ops[..k]);
        VersionsOne(a.ops[..k], a.ops[k]);
        var op := AlterStep(a, a.ops[k]);
        WithPairTwice(w1, a, AlterAll(p, a.ops[..k]), AlterAll(p, a.ops[..k + 1]));
        ops := ops + [op];
        k := k + 1;
      }
      assert a.ops[..k] == a.ops;
    }

    /** `alter_space_rollback`: undo the operations, in list order, put the old version back, delete the new one. */
    method AlterSpaceRollback(a: Alter)
      requires Both(a)
      modifies this
      ensures View() == Rollback(old(View()), a)
    {
      ghost var w, p := View(), PairOf(View(), a);
      assert w.spaces[a.oldSpace := p.o][a.newSpace := p.n] == w.spaces;
      var dicts: set<nat> := {};
      var k := 0;
      while k < |a.ops|
        invariant 0 <= k <= |a.ops| && Both(a) && View() == WithPair(w, a, RollbackAll(p, a.ops[..k])) && dicts == Dicts(a.ops[..k])
      {
        assert a.ops[..k + 1][..k] == a.ops[..k];
        RollbackStep(a, a.ops[k]);
        WithPairTwice(w, a, RollbackAll(p, a.ops[..k]), RollbackAll(p, a.ops[..k + 1]));
        if a.ops[k].ModifySpace? { dicts := dicts + {a.ops[k].newDict}; }
        k := k + 1;
      }
      assert a.ops[..k] == a.ops;
      WithPairTwice(w, a, RollbackAll(p, a.ops), SwapRest(RollbackAll(p, a.ops)));
      SwapTheRest(a);
      cache := a.oldSpace;
      defs, names := defs - spaces[a.newSpace].index.Values, names - dicts;
      spaces := spaces - {a.newSpace};
    }

    /** `alter_space_commit`: delete the operations and the old version. */
    method AlterSpaceCommit(a: Alter)
      requires a.oldSpace in spaces
      modifies this
      ensures View() == Commit(old(View()), a)
    {
      var dicts: set<nat> := {};
      var k := 0;
      while k < |a.ops|
        invariant 0 <= k <= |a.ops| && View() == old(View()) && dicts == Dicts(a.ops[..k])
      {
        assert a.ops[..k + 1][..k] == a.ops[..k];
        if a.ops[k].ModifySpace? { dicts := dicts + {a.ops[k].newDict}; }
        k := k + 1;
      }
      assert a.ops[..k] == a.ops;
      defs, names := defs - spaces[a.oldSpace].index.Values, names - dicts;
      spaces := spaces - {a.oldSpace};
    }
  }

  lemma WithPairTwice(w: World, a: Alter, p: Pair, q: Pair)
    requires a.oldSpace != a.newSpace
    ensures forall v: nat :: WithPair(WithPair(w, a, p).(version := v), a, q) == WithPair(w, a, q).(version := v)
    ensures WithPair(WithPair(w, a, p), a, q) == WithPair(w, a, q)
  {
    assert w.spaces[a.oldSpace := p.o][a.newSpace := p.n][a.oldSpace := q.o][a.newSpace := q.n] == w.spaces[a.oldSpace := q.o][a.newSpace := q.n];
  }

  lemma VersionsOne(ops: seq<Op>, op: Op)
    ensures Versions(ops + [op]) == Versions(ops) + Versions([op])
  {
    assert (ops + [op])[..|ops|] == ops && [op][..0] == [];
  }
}
