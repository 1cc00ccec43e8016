/**
 The triggers of `_space`, `_index` and `_truncate` on the engine, from the row that
 fires them to the alter that is done or rolled back; which indexes and constraint names
 the new version has; and stacks of such alters.
 */
module AlterRuns {
  import opened Options
  import opened AlterSpace
  import opened AlterTriggers
  import Constraints

  // ---------------------------------------------------------------------------
  // The indexes of the new version
  // ---------------------------------------------------------------------------

  ghost predicate Touches(ops: seq<Op>, i: nat)
  {
    exists k :: 0 <= k < |ops| && PartOf(ops[k]) == Slot(i)
  }

  /** A slot of the new version has the old index if an operation takes it over, and otherwise the index made for it. */
  lemma SlotOfNew(w: World, a: Alter, i: nat)
    requires Startable(w, a)
    ensures a.newSpace in Do(w, a).spaces
    ensures At(Do(w, a).spaces[a.newSpace].index, i) == if Touches(a.ops, i) then At(w.spaces[a.oldSpace].index, i) else At(a.blank.index, i)
  {
    if Touches(a.ops, i) {
      var k :| 0 <= k < |a.ops| && PartOf(a.ops[k]) == Slot(i);
      MovedIndexStays(w, a, k);
    } else {
      AllKeep(PairOf(Created(w, a), a), a.ops, MoveIndex(i));
    }
  }

  /** The indexes that a version has after the trigger. */
  function IndexesAfter(s: Space, t: Trigger): set<nat>
  {
    if t.OnIndex? && t.change.Made? then s.index.Keys + {t.iid}
    else if t.OnIndex? && t.change.Dropped? then s.index.Keys - {t.iid}
    else s.index.Keys
  }

  /** The amended key list has exactly these indexes. */
  lemma AmendedKeys(s: Space, t: Trigger, keys: map<nat, int>, newDef: nat -> int, i: nat)
    requires Fires(s, t) && keys.Keys == s.index.Keys
    ensures i in AlterDefs(keys, OpsOf(s, t), newDef) <==> i in IndexesAfter(s, t)
  {
    var ops := OpsOf(s, t);
    if i in IndexesAfter(s, t) {
      if DropIndex(i) in ops { ListOrigins(s, t, DropIndex(i)); }
      if i !in keys { MadeIsDefined(s, t); }
      KeyIsIn(keys, ops, newDef, i);
    } else {
      forall k | 0 <= k < |ops| ensures !Defines(ops[k], i) {
        assert ops[k] in ops;
        ListOrigins(s, t, ops[k]);
      }
      if i in keys { ChangeIsIn(s, t, DropIndex(i)); }
      KeyIsOut(keys, ops, newDef, i);
    }
  }

  lemma ChangeIsIn(s: Space, t: Trigger, op: Op)
    requires Fires(s, t) && t.OnIndex? && op in ChangeOps(s, t.iid, t.change)
    ensures op in OpsOf(s, t)
  {
  }

  lemma MadeIsDefined(s: Space, t: Trigger)
    requires Fires(s, t) && t.OnIndex? && t.change.Made?
    ensures exists k :: 0 <= k < |OpsOf(s, t)| && Defines(OpsOf(s, t)[k], t.iid)
  {
    ChangeIsIn(s, t, CreateIndex(t.iid));
    var k :| 0 <= k < |OpsOf(s, t)| && OpsOf(s, t)[k] == CreateIndex(t.iid);
    assert Defines(OpsOf(s, t)[k], t.iid);
  }

  /** A new version has exactly the indexes that its trigger leaves: a made one is there, a dropped one is gone, all others stay. */
  lemma NewIndexes(w: World, t: Trigger, newDef: nat -> int, a: Alter)
    requires MadeFor(w, t, newDef, a)
    ensures a.newSpace in Do(w, a).spaces
    ensures Do(w, a).spaces[a.newSpace].index.Keys == IndexesAfter(w.spaces[w.cache], t)
  {
    var s := w.spaces[w.cache];
    TriggersAreStartable(w, t, newDef, a);
    forall i: nat ensures i in Do(w, a).spaces[a.newSpace].index <==> i in IndexesAfter(s, t) {
      SlotOfNew(w, a, i);
      AmendedKeys(s, t, KeyList(w, s), newDef, i);
      if Touches(a.ops, i) { TouchedStays(s, t, i); }
    }
  }

  lemma TouchedStays(s: Space, t: Trigger, i: nat)
    requires Fires(s, t) && Touches(OpsOf(s, t), i)
    ensures i in s.index && i in IndexesAfter(s, t)
  {
    var k :| 0 <= k < |OpsOf(s, t)| && PartOf(OpsOf(s, t)[k]) == Slot(i);
    assert OpsOf(s, t)[k] in OpsOf(s, t);
    ListOrigins(s, t, OpsOf(s, t)[k]);
  }

  // ---------------------------------------------------------------------------
  // What becomes of each index
  // ---------------------------------------------------------------------------

  /** No operation exchanges the definition of object `x`. */
  ghost predicate Aside(p: Pair, ops: seq<Op>, x: nat)
  {
    forall op | op in ops && op.ModifyIndex? :: x != op.oldIndex && At(p.n.index, op.iid) != Some(x)
  }

  lemma {:induction false} DefAside(p: Pair, ops: seq<Op>, x: nat)
    requires ListOK(p, ops) && Aside(p, ops, x)
    ensures At(AlterAll(p, ops).defs, x) == At(p.defs, x)
  {
    if ops != [] {
      var n := |ops| - 1;
      var first, op := ops[..n], ops[n];
      assert op in ops && forall o | o in first :: o in ops;
      DefAside(p, first, x);
      if op.ModifyIndex? {
        forall j | 0 <= j < n ensures Apart(first[j], op) { assert Apart(ops[j], op); }
        AllKeep(p, first, op);
        assert OpOK(p, op);
      }
    }
  }

  /** The definition of an object in the new world is that of the created one, if no operation exchanges it. */
  lemma DefIsAside(w: World, a: Alter, x: nat)
    requires Startable(w, a) && Aside(PairOf(Created(w, a), a), a.ops, x)
    ensures At(Do(w, a).defs, x) == At(w.defs + a.newDefs, x)
  {
    CreatedIsSeparate(w, a);
    DefAside(PairOf(Created(w, a), a), a.ops, x);
  }

  /** What the world has for index `i` of the cached version. */
  ghost function ObjectOf(w: World, i: nat): Option<nat>
  {
    if w.cache in w.spaces then At(w.spaces[w.cache].index, i) else None
  }

  ghost function DefOf(w: World, i: nat): Option<int>
  {
    if ObjectOf(w, i).Some? then At(w.defs, ObjectOf(w, i).value) else None
  }

  /** What the world `v` has for index `i`, which in `w` was kept in the given way. */
  ghost predicate Kept(w: World, v: World, i: nat, way: Way, def: int)
  {
    && ObjectOf(w, i).Some? && ObjectOf(v, i).Some? && DefOf(v, i).Some?
    && match way
       case Move => ObjectOf(v, i) == ObjectOf(w, i) && DefOf(v, i) == DefOf(w, i)
       case Modify => ObjectOf(v, i) == ObjectOf(w, i) && DefOf(v, i) == Some(def)
       case Rebuild => ObjectOf(v, i).value !in w.defs && DefOf(v, i) == Some(def)
  }

  /** The new version has a new object with definition `def` for the index. */
  ghost predicate IsMade(w: World, v: World, i: nat, def: Option<int>)
  {
    ObjectOf(v, i).Some? && ObjectOf(v, i).value !in w.defs && DefOf(v, i) == def && def.Some?
  }

  /** A slot of the old version with no other operation on it: its object is not exchanged. */
  lemma MovedAside(w: World, t: Trigger, newDef: nat -> int, a: Alter, i: nat)
    requires MadeFor(w, t, newDef, a) && MoveIndex(i) in a.ops
    ensures i in w.spaces[w.cache].index && Aside(PairOf(Created(w, a), a), a.ops, w.spaces[w.cache].index[i])
  {
    var s := w.spaces[w.cache];
    ListOrigins(s, t, MoveIndex(i));
    forall op | op in a.ops && op.ModifyIndex? ensures s.index[i] != op.oldIndex && At(a.blank.index, op.iid) != Some(s.index[i]) {
      ListOrigins(s, t, op);
      if op.iid == i { OncePerIndex(s, t, op, MoveIndex(i)); }
      assert s.index[i] in s.index.Values;
      assert op.iid in a.blank.index ==> a.blank.index[op.iid] in a.blank.index.Values;
    }
    TriggersAreStartable(w, t, newDef, a);
    CreatedPair(w, a);
  }

  lemma MovedFate(w: World, t: Trigger, newDef: nat -> int, a: Alter, i: nat)
    requires MadeFor(w, t, newDef, a) && MoveIndex(i) in a.ops
    ensures Kept(w, Do(w, a), i, Move, newDef(i))
  {
    var s := w.spaces[w.cache];
    TriggersAreStartable(w, t, newDef, a);
    MovedAside(w, t, newDef, a, i);
    var k :| 0 <= k < |a.ops| && a.ops[k] == MoveIndex(i);
    MovedIndexStays(w, a, k);
    DefIsAside(w, a, s.index[i]);
    assert s.index[i] in s.index.Values;
  }

  lemma ModifiedFate(w: World, t: Trigger, newDef: nat -> int, a: Alter, i: nat)
    requires MadeFor(w, t, newDef, a) && i in w.spaces[w.cache].index && ModifyIndex(i, w.spaces[w.cache].index[i], 0) in a.ops
    ensures Kept(w, Do(w, a), i, Modify, newDef(i))
  {
    var s := w.spaces[w.cache];
    TriggersAreStartable(w, t, newDef, a);
    var k :| 0 <= k < |a.ops| && a.ops[k] == ModifyIndex(i, s.index[i], 0);
    MovedIndexStays(w, a, k);
    ModifiedIndexIsRedefined(w, a, k);
    assert Defines(a.ops[k], i);
    KeyValue(KeyList(w, s), a.ops, newDef, i);
  }

  /** The object that was made for an index is not exchanged if the index is not modified. */
  lemma MadeAside(w: World, t: Trigger, newDef: nat -> int, a: Alter, i: nat)
    requires MadeFor(w, t, newDef, a) && i in a.blank.index && forall op | op in a.ops && op.ModifyIndex? :: op.iid != i
    ensures Aside(PairOf(Created(w, a), a), a.ops, a.blank.index[i])
  {
    var s := w.spaces[w.cache];
    forall op | op in a.ops && op.ModifyIndex? ensures a.blank.index[i] != op.oldIndex && At(a.blank.index, op.iid) != Some(a.blank.index[i]) {
      ListOrigins(s, t, op);
      assert s.index[op.iid] in s.index.Values && a.blank.index[i] in a.blank.index.Values;
    }
    TriggersAreStartable(w, t, newDef, a);
    CreatedPair(w, a);
  }

  lemma NotModified(ops: seq<Op>, i: nat)
    requires !Touches(ops, i)
    ensures forall op | op in ops && op.ModifyIndex? :: op.iid != i
  {
    forall op | op in ops && op.ModifyIndex? ensures op.iid != i {
      var k :| 0 <= k < |ops| && ops[k] == op;
      assert PartOf(ops[k]) == Slot(op.iid);
    }
  }

  /** The object of the new version is a new one, with the definition of its key. */
  lemma NewObject(keys: map<nat, int>, dict: nat, blank: Space, defs: map<nat, int>, newDefs: map<nat, int>, i: nat)
    requires IsNewSpace(keys, dict, blank, newDefs) && i in blank.index && newDefs.Keys !! defs.Keys
    ensures blank.index[i] !in defs && At(defs + newDefs, blank.index[i]) == At(keys, i) && At(keys, i).Some?
  {
    assert blank.index[i] in blank.index.Values;
  }

  /** An index whose slot no operation takes over has the object and the definition that were made for it. */
  lemma MadeFate(w: World, t: Trigger, newDef: nat -> int, a: Alter, i: nat)
    requires MadeFor(w, t, newDef, a) && i in a.blank.index && !Touches(a.ops, i)
    ensures IsMade(w, Do(w, a), i, At(AlterDefs(KeyList(w, w.spaces[w.cache]), a.ops, newDef), i))
  {
    TriggersAreStartable(w, t, newDef, a);
    SlotOfNew(w, a, i);
    NotModified(a.ops, i);
    MadeAside(w, t, newDef, a, i);
    DefIsAside(w, a, a.blank.index[i]);
    NewObject(AlterDefs(KeyList(w, w.spaces[w.cache]), a.ops, newDef), w.spaces[w.cache].dict, a.blank, w.defs, a.newDefs, i);
  }

  /** A made or rebuilt index has a new object with its new definition. */
  lemma DefinedFate(w: World, t: Trigger, newDef: nat -> int, a: Alter, op: Op)
    requires MadeFor(w, t, newDef, a) && op in a.ops && (op.CreateIndex? || op.RebuildIndex?)
    ensures IsMade(w, Do(w, a), op.iid, Some(newDef(op.iid)))
  {
    var s := w.spaces[w.cache];
    NotTouched(s, t, op);
    DefinedValue(s, t, KeyList(w, s), newDef, op);
    MadeFate(w, t, newDef, a, op.iid);
  }

  lemma NotTouched(s: Space, t: Trigger, op: Op)
    requires Fires(s, t) && op in OpsOf(s, t) && (op.CreateIndex? || op.RebuildIndex?)
    ensures !Touches(OpsOf(s, t), op.iid)
  {
    forall other | other in OpsOf(s, t) ensures PartOf(other) != Slot(op.iid) { OtherSlot(s, t, op, other); }
  }

  lemma OtherSlot(s: Space, t: Trigger, op: Op, other: Op)
    requires Fires(s, t) && op in OpsOf(s, t) && (op.CreateIndex? || op.RebuildIndex?) && other in OpsOf(s, t)
    ensures PartOf(other) != Slot(op.iid)
  {
    if PartOf(other) == Slot(op.iid) { OncePerIndex(s, t, op, other); }
  }

  lemma DefinedValue(s: Space, t: Trigger, keys: map<nat, int>, newDef: nat -> int, op: Op)
    requires Fires(s, t) && keys.Keys == s.index.Keys && op in OpsOf(s, t) && (op.CreateIndex? || op.RebuildIndex?)
    ensures op.iid in AlterDefs(keys, OpsOf(s, t), newDef) && AlterDefs(keys, OpsOf(s, t), newDef)[op.iid] == newDef(op.iid)
  {
    var k :| 0 <= k < |OpsOf(s, t)| && OpsOf(s, t)[k] == op;
    ListsFindIndexes(s, t, keys, newDef, k, op.iid);
    KeyValue(keys, OpsOf(s, t), newDef, op.iid);
  }

  /** A truncated index has a new object with the definition that it had. */
  lemma TruncatedFate(w: World, t: Trigger, newDef: nat -> int, a: Alter, i: nat)
    requires MadeFor(w, t, newDef, a) && t.OnTruncate? && i in w.spaces[w.cache].index
    ensures IsMade(w, Do(w, a), i, DefOf(w, i))
  {
    var s := w.spaces[w.cache];
    TruncatedValue(s, t, KeyList(w, s), newDef, i);
    AmendedKeys(s, t, KeyList(w, s), newDef, i);
    TruncatedSlot(s, t, i);
    MadeFate(w, t, newDef, a, i);
    assert At(KeyList(w, s), i) == DefOf(w, i);
  }

  lemma TruncatedSlot(s: Space, t: Trigger, i: nat)
    requires Fires(s, t) && t.OnTruncate?
    ensures !Touches(OpsOf(s, t), i)
  {
  }

  lemma TruncatedValue(s: Space, t: Trigger, keys: map<nat, int>, newDef: nat -> int, i: nat)
    requires Fires(s, t) && t.OnTruncate? && keys.Keys == s.index.Keys && i in keys
    ensures At(AlterDefs(keys, OpsOf(s, t), newDef), i) == At(keys, i)
  {
    AmendedKeys(s, t, keys, newDef, i);
    KeyValue(keys, OpsOf(s, t), newDef, i);
  }

  /** An index that is kept in a given way. */
  lemma KeptFate(w: World, t: Trigger, newDef: nat -> int, a: Alter, i: nat, way: Way)
    requires MadeFor(w, t, newDef, a) && i in w.spaces[w.cache].index && WayOp(w.spaces[w.cache], i, way) in a.ops
    ensures Kept(w, Do(w, a), i, way, newDef(i))
  {
    match way
    case Move => MovedFate(w, t, newDef, a, i);
    case Modify => ModifiedFate(w, t, newDef, a, i);
    case Rebuild => DefinedFate(w, t, newDef, a, RebuildIndex(i));
  }

  /** What the index trigger has done to the index that it is about. */
  ghost predicate IsChanged(w: World, v: World, i: nat, change: Change, def: int)
  {
    match change
    case Dropped => ObjectOf(v, i).None?
    case Made => IsMade(w, v, i, Some(def))
    case Same => Kept(w, v, i, Move, def)
    case Rebuilt => Kept(w, v, i, Rebuild, def)
    case Modified => Kept(w, v, i, Modify, def)
  }

  lemma ChangedFate(w: World, t: Trigger, newDef: nat -> int, a: Alter)
    requires MadeFor(w, t, newDef, a) && t.OnIndex?
    ensures IsChanged(w, Do(w, a), t.iid, t.change, newDef(t.iid))
  {
    var s := w.spaces[w.cache];
    NewIndexes(w, t, newDef, a);
    match t.change
    case Dropped =>
    case Made => ChangeIsIn(s, t, CreateIndex(t.iid)); DefinedFate(w, t, newDef, a, CreateIndex(t.iid));
    case Same => ChangeIsIn(s, t, MoveIndex(t.iid)); MovedFate(w, t, newDef, a, t.iid);
    case Rebuilt => ChangeIsIn(s, t, RebuildIndex(t.iid)); KeptFate(w, t, newDef, a, t.iid, Rebuild);
    case Modified => ChangeIsIn(s, t, ModifyIndex(t.iid, s.index[t.iid], 0)); ModifiedFate(w, t, newDef, a, t.iid);
  }

  // ---------------------------------------------------------------------------
  // Checks, field names and the rest
  // ---------------------------------------------------------------------------

  /** No operation of the list is about checks. */
  lemma {:induction false} ChecksStay(p: Pair, ops: seq<Op>)
    requires forall k | 0 <= k < |ops| :: PartOf(ops[k]) != CkPart
    ensures var q := AlterAll(p, ops); q.n.ck == p.n.ck && q.o.ck == p.o.ck && q.n.ckTrigger == p.n.ckTrigger && q.o.ckTrigger == p.o.ckTrigger
  {
    if ops != [] { ChecksStay(p, ops[..|ops| - 1]); }
  }

  /** The checks of the new version are those that the operation has, or those of the old version; their trigger goes over. */
  lemma {:induction false} ChecksAfter(p: Pair, ops: seq<Op>, k: nat)
    requires AllApart(ops) && k < |ops| && PartOf(ops[k]) == CkPart
    ensures var q := AlterAll(p, ops);
            q.n.ck == (if ops[k].RebuildCkConstraints? then ops[k].list else p.o.ck) && q.n.ckTrigger == p.o.ckTrigger
  {
    var n := |ops| - 1;
    if k < n {
      ChecksAfter(p, ops[..n], k);
      assert Apart(ops[k], ops[n]);
    } else {
      forall j | 0 <= j < n ensures PartOf(ops[..n][j]) != CkPart { assert Apart(ops[j], ops[n]); }
      ChecksStay(p, ops[..n]);
    }
  }

  lemma {:induction false} NamesStay(p: Pair, ops: seq<Op>)
    requires forall k | 0 <= k < |ops| :: !ops[k].ModifySpace?
    ensures AlterAll(p, ops).names == p.names && AlterAll(p, ops).n.dict == p.n.dict
  {
    if ops != [] { NamesStay(p, ops[..|ops| - 1]); }
  }

  lemma {:induction false} DictStays(p: Pair, ops: seq<Op>)
    ensures AlterAll(p, ops).n.dict == p.n.dict && AlterAll(p, ops).n.def == p.n.def
  {
    if ops != [] { DictStays(p, ops[..|ops| - 1]); }
  }

  /** The dictionary of the new version has the new names. */
  lemma {:induction false} NamesAfter(p: Pair, ops: seq<Op>, k: nat)
    requires AllApart(ops) && k < |ops| && ops[k].ModifySpace? && ops[k].newDict != p.n.dict
    ensures At(AlterAll(p, ops).names, p.n.dict) == At(p.names, ops[k].newDict)
  {
    var n := |ops| - 1;
    if k < n {
      NamesAfter(p, ops[..n], k);
      assert Apart(ops[k], ops[n]);
    } else {
      forall j | 0 <= j < n ensures !ops[..n][j].ModifySpace? { assert Apart(ops[j], ops[n]); }
      NamesStay(p, ops[..n]);
    }
  }

  /** The rest of the cached version in the worlds before and after: only checks, definition and constraint names may differ. */
  ghost predicate RestKept(w: World, v: World, ck: seq<int>, def: int, ids: map<string, int>)
  {
    && w.cache in w.spaces && v.cache in v.spaces
    && var s, s' := w.spaces[w.cache], v.spaces[v.cache];
       && s'.triggers == s.triggers && s'.childFk == s.childFk && s'.parentFk == s.parentFk && s'.fkMask == s.fkMask
       && s'.ckTrigger == s.ckTrigger && s'.ck == ck && s'.def == def && s'.ids == ids && s'.dict == s.dict
  }

  /** The field names of the cached version. */
  ghost function FieldNames(w: World): Option<seq<string>>
  {
    if w.cache in w.spaces then At(w.names, w.spaces[w.cache].dict) else None
  }

  lemma RestFate(w: World, t: Trigger, newDef: nat -> int, a: Alter, k: nat)
    requires MadeFor(w, t, newDef, a) && k < |a.ops| && PartOf(a.ops[k]) == CkPart
    ensures var s := w.spaces[w.cache];
            RestKept(w, Do(w, a), if a.ops[k].RebuildCkConstraints? then a.ops[k].list else s.ck, a.blank.def, IdsAfter(s.ids, a.ops))
  {
    TriggersAreStartable(w, t, newDef, a);
    RestIsTakenOver(w, a);
    CreatedPair(w, a);
    ChecksAfter(PairOf(Created(w, a), a), a.ops, k);
    DictStays(PairOf(Created(w, a), a), a.ops);
  }

  lemma NamesKept(w: World, t: Trigger, newDef: nat -> int, a: Alter)
    requires MadeFor(w, t, newDef, a) && !t.OnSpace?
    ensures FieldNames(Do(w, a)) == FieldNames(w)
  {
    TriggersAreStartable(w, t, newDef, a);
    CreatedPair(w, a);
    forall k | 0 <= k < |a.ops| ensures !a.ops[k].ModifySpace? {
      assert a.ops[k] in a.ops;
      ListOrigins(w.spaces[w.cache], t, a.ops[k]);
    }
    NamesStay(PairOf(Created(w, a), a), a.ops);
  }

  lemma NamesChanged(w: World, t: Trigger, newDef: nat -> int, a: Alter)
    requires MadeFor(w, t, newDef, a) && t.OnSpace?
    ensures FieldNames(Do(w, a)) == At(a.newNames, t.newDict)
  {
    TriggersAreStartable(w, t, newDef, a);
    CreatedPair(w, a);
    assert a.ops[1] == ModifySpace(t.newDict);
    assert OpOK(PairOf(Created(w, a), a), a.ops[1]);
    DictIsIn(a.ops, 1);
    NamesAfter(PairOf(Created(w, a), a), a.ops, 1);
    DictStays(PairOf(Created(w, a), a), a.ops);
  }

  // ---------------------------------------------------------------------------
  // The new world is sound again
  // ---------------------------------------------------------------------------

  lemma SwapKeepsKeys<V>(m: map<nat, V>, a: nat, b: nat)
    requires a in m && b in m
    ensures SwapValues(m, a, b).Keys == m.Keys
  {
  }

  /** Exchanging definitions and field names makes and loses none. */
  lemma {:induction false} ObjectsStay(p: Pair, ops: seq<Op>)
    requires ListOK(p, ops) && p.o.index.Values + p.n.index.Values <= p.defs.Keys && p.n.dict in p.names && Dicts(ops) <= p.names.Keys
    ensures var q := AlterAll(p, ops); q.defs.Keys == p.defs.Keys && q.names.Keys == p.names.Keys && q.n.dict == p.n.dict
  {
    if ops != [] {
      var n := |ops| - 1;
      var first, op := ops[..n], ops[n];
      ObjectsStay(p, first);
      var q := AlterAll(p, first);
      assert OpOK(p, op);
      if op.ModifyIndex? {
        forall j | 0 <= j < n ensures Apart(first[j], op) { assert Apart(ops[j], op); }
        AllKeep(p, first, op);
        assert At(q.n.index, op.iid) == At(p.n.index, op.iid);
        assert op.oldIndex in p.o.index.Values && p.n.index[op.iid] in p.n.index.Values;
        SwapKeepsKeys(q.defs, op.oldIndex, q.n.index[op.iid]);
      } else if op.ModifySpace? {
        SwapKeepsKeys(q.names, q.n.dict, op.newDict);
      }
    }
  }

  /** The indexes of the new version are different objects. */
  lemma NewInjective(w: World, a: Alter)
    requires Startable(w, a)
    ensures a.newSpace in Do(w, a).spaces && Injective(Do(w, a).spaces[a.newSpace].index)
  {
    var index := Do(w, a).spaces[a.newSpace].index;
    forall i, j | i in index && j in index && i != j ensures index[i] != index[j] { NewDiffer(w, a, i, j); }
  }

  lemma NewDiffer(w: World, a: Alter, i: nat, j: nat)
    requires Startable(w, a) && i != j
    ensures a.newSpace in Do(w, a).spaces
    ensures var index := Do(w, a).spaces[a.newSpace].index; i in index && j in index ==> index[i] != index[j]
  {
    SlotOfNew(w, a, i);
    SlotOfNew(w, a, j);
    CreatedIsSeparate(w, a);
    CreatedPair(w, a);
  }

  lemma NewHasDefs(w: World, a: Alter)
    requires Startable(w, a)
    ensures a.newSpace in Do(w, a).spaces && Do(w, a).spaces[a.newSpace].index.Values <= (w.defs + a.newDefs).Keys
  {
    var index := Do(w, a).spaces[a.newSpace].index;
    forall i | i in index ensures index[i] in w.defs + a.newDefs {
      SlotOfNew(w, a, i);
      OldOrNew(Pair(w.spaces[a.oldSpace], a.blank, w.defs + a.newDefs, w.names), a.ops, i);
    }
  }

  /** After the alter of a trigger the world is sound again: the next trigger can start from it. */
  lemma TriggerKeepsSound(w: World, t: Trigger, newDef: nat -> int, a: Alter)
    requires MadeFor(w, t, newDef, a)
    ensures Sound(Do(w, a))
  {
    TriggersAreStartable(w, t, newDef, a);
    NewInjective(w, a);
    NewHasDefs(w, a);
    CreatedIsSeparate(w, a);
    CreatedPair(w, a);
    ObjectsStay(PairOf(Created(w, a), a), a.ops);
  }

  lemma OldOrNew(p: Pair, ops: seq<Op>, i: nat)
    requires p.o.index.Values + p.n.index.Values <= p.defs.Keys
    ensures var x := if Touches(ops, i) then At(p.o.index, i) else At(p.n.index, i); x.Some? ==> x.value in p.defs
  {
    assert i in p.o.index ==> p.o.index[i] in p.o.index.Values;
    assert i in p.n.index ==> p.n.index[i] in p.n.index.Values;
  }

  // ---------------------------------------------------------------------------
  // Stacks of triggers
  // ---------------------------------------------------------------------------

  datatype Fired = Fired(t: Trigger, newDef: nat -> int, a: Alter)

  /** The triggers fire one after the other, each on the version that the one before it has left. */
  ghost predicate FiredStack(w: World, fired: seq<Fired>)
    decreases |fired|
  {
    fired != [] ==> MadeFor(w, fired[0].t, fired[0].newDef, fired[0].a) && FiredStack(Do(w, fired[0].a), fired[1..])
  }

  function Alters(fired: seq<Fired>): seq<Alter>
  {
    if fired == [] then [] else [fired[0].a] + Alters(fired[1..])
  }

  lemma {:induction false} FiredCanStack(w: World, fired: seq<Fired>)
    requires FiredStack(w, fired)
    ensures StackOK(w, Alters(fired))
    decreases |fired|
  {
    if fired != [] {
      TriggersAreStartable(w, fired[0].t, fired[0].newDef, fired[0].a);
      FiredCanStack(Do(w, fired[0].a), fired[1..]);
      assert Alters(fired)[1..] == Alters(fired[1..]);
    }
  }

  /** Any number of triggers of a transaction can be rolled back, last-first, and leave the world in which it began. */
  lemma FiredRollBack(w: World, fired: seq<Fired>) returns (v: World)
    requires FiredStack(w, fired)
    ensures StackOK(w, Alters(fired)) && RolledBack(w, DoStack(w, Alters(fired)), Alters(fired), v) && SameWorld(v, w)
  {
    FiredCanStack(w, fired);
    v := StackCanRollBack(w, DoStack(w, Alters(fired)), Alters(fired));
    StackRollback(w, DoStack(w, Alters(fired)), Alters(fired), v);
  }

  // ---------------------------------------------------------------------------
  // Constraint names
  // ---------------------------------------------------------------------------

  lemma {:induction false} IdsAfterConcat(ids: map<string, int>, a: seq<Op>, b: seq<Op>)
    ensures IdsAfter(ids, a + b) == IdsAfter(IdsAfter(ids, a), b)
  {
    if b == [] {
      assert a + b == a;
    } else {
      IdsAfterConcat(ids, a, b[..|b| - 1]);
      assert (a + b)[..|a + b| - 1] == a + b[..|b| - 1];
    }
  }

  lemma {:induction false} NoIdsAfter(ids: map<string, int>, ops: seq<Op>)
    requires NoIds(ops)
    ensures IdsAfter(ids, ops) == ids
  {
    if ops != [] {
      assert ops[|ops| - 1] in ops;
      NoIdsAfter(ids, ops[..|ops| - 1]);
    }
  }

  /** The constraint names when that of an index changes. */
  function NamesLeft(ids: map<string, int>, names: Names, id: int): map<string, int>
  {
    if names.before == names.after then ids
    else (if names.after.Some? then ids[names.after.value := id] else ids) - Constraints.NameSet(names.before)
  }

  lemma IdOpsAfter(ids: map<string, int>, names: Names, id: int)
    ensures IdsAfter(ids, IdOps(names, id)) == NamesLeft(ids, names, id)
  {
    if names.before != names.after {
      var made := if names.after.Some? then [CreateConstraintID(names.after.value, id)] else [];
      var dropped := if names.before.Some? then [DropConstraintID(names.before.value, 0)] else [];
      IdsAfterConcat(ids, made, dropped);
      OneId(ids, made);
      OneId(IdsAfter(ids, made), dropped);
    }
  }

  lemma OneId(ids: map<string, int>, ops: seq<Op>)
    requires |ops| <= 1
    ensures IdsAfter(ids, ops) == if ops == [] then ids else IdsAfterOne(ids, ops[0])
  {
    if ops != [] { assert ops[..0] == []; }
  }

  lemma NamesOfHead(ids: map<string, int>, head: seq<Op>, a: seq<Op>, b: seq<Op>, c: seq<Op>)
    requires NoIds(a) && NoIds(b) && NoIds(c)
    ensures IdsAfter(ids, head + a + b + c) == IdsAfter(ids, head)
  {
    IdsAfterConcat(ids, head + a + b, c);
    IdsAfterConcat(ids, head + a, b);
    IdsAfterConcat(ids, head, a);
    NoIdsAfter(IdsAfter(ids, head), a);
    NoIdsAfter(IdsAfter(ids, head), b);
    NoIdsAfter(IdsAfter(ids, head), c);
  }

  /** The names that the list of a trigger leaves. */
  lemma TriggerNames(s: Space, t: Trigger)
    requires Fires(s, t)
    ensures IdsAfter(s.ids, OpsOf(s, t)) == if t.OnIndex? then NamesLeft(s.ids, t.names, t.id) else s.ids
  {
    match t
    case OnIndex(iid, max, change, names, id, before, after) =>
      KeepingInRange(s, 0, iid, before);
      KeepingInRange(s, iid + 1, max + 1, after);
      NamesOfHead(s.ids, Head(change, IdOps(names, id), before), ChangeOps(s, iid, change), after, [MoveCkConstraints, UpdateSchemaVersion]);
      HeadNames(s.ids, change, IdOps(names, id), before);
      IdOpsAfter(s.ids, names, id);
    case OnSpace(max, newDict, checks, moves) =>
      KeepingInRange(s, 0, max + 1, moves);
      NoIdsAfter(s.ids, OpsOf(s, t));
    case OnTruncate(iids) => NoIdsAfter(s.ids, OpsOf(s, t));
  }

  /** The list of the index trigger does to the constraint names what changing the index does to the taken names. */
  lemma IndexTriggerNames(s: Space, t: Trigger, sp: Constraints.Space, x: Option<Constraints.Index>)
    requires Fires(s, t) && t.OnIndex? && sp.ids == s.ids.Keys
    requires t.names == Names(Constraints.TakenName(if t.iid in sp.index then Some(sp.index[t.iid]) else None), Constraints.TakenName(x))
    ensures IdsAfter(s.ids, OpsOf(s, t)).Keys == Constraints.SetIndex(sp, t.iid, x).ids
  {
    TriggerNames(s, t);
  }

  lemma HeadNames(ids: map<string, int>, change: Change, idOps: seq<Op>, before: seq<Op>)
    requires NoIds(before)
    ensures IdsAfter(ids, Head(change, idOps, before)) == IdsAfter(ids, idOps)
  {
    IdsAfterConcat(ids, before, idOps);
    IdsAfterConcat(ids, idOps, before);
    NoIdsAfter(ids, before);
    NoIdsAfter(IdsAfter(ids, idOps), before);
  }

  // ---------------------------------------------------------------------------
  // The triggers on the engine
  // ---------------------------------------------------------------------------

  lemma {:induction false} DictsFrom(ops: seq<Op>, d: nat) returns (k: nat)
    requires d in Dicts(ops)
    ensures k < |ops| && ops[k] == ModifySpace(d)
  {
    var n := |ops| - 1;
    if ops[n] == ModifySpace(d) { k := n; } else { k := DictsFrom(ops[..n], d); }
  }

  /** Only the space trigger has a new dictionary. */
  lemma DictsOfTrigger(s: Space, t: Trigger)
    requires Fires(s, t)
    ensures Dicts(OpsOf(s, t)) == if t.OnSpace? then {t.newDict} else {}
  {
    var ops := OpsOf(s, t);
    forall d | d in Dicts(ops) ensures t.OnSpace? && d == t.newDict {
      var k := DictsFrom(ops, d);
      assert ops[k] in ops;
      ListOrigins(s, t, ops[k]);
    }
    if t.OnSpace? { DictIsIn(ops, 1); }
  }

  lemma {:induction false} VersionsConcat(a: seq<Op>, b: seq<Op>)
    ensures Versions(a + b) == Versions(a) + Versions(b)
  {
    if b == [] {
      assert a + b == a;
    } else {
      VersionsConcat(a, b[..|b| - 1]);
      assert (a + b)[..|a + b| - 1] == a + b[..|b| - 1];
    }
  }

  lemma {:induction false} NoVersions(ops: seq<Op>)
    requires UpdateSchemaVersion !in ops
    ensures Versions(ops) == 0
  {
    if ops != [] { NoVersions(ops[..|ops| - 1]); }
  }

  lemma KeepingVersions(s: Space, lo: nat, hi: nat, ops: seq<Op>)
    requires Keeping(s, lo, hi, ops)
    ensures Versions(ops) == 0
  {
    KeepingInRange(s, lo, hi, ops);
    NoVersions(ops);
  }

  lemma HeadVersions(s: Space, change: Change, names: Names, id: int, iid: nat, before: seq<Op>)
    requires Keeping(s, 0, iid, before)
    ensures Versions(Head(change, IdOps(names, id), before)) == 0
  {
    VersionsConcat(IdOps(names, id), before);
    VersionsConcat(before, IdOps(names, id));
    KeepingVersions(s, 0, iid, before);
    NoVersions(IdOps(names, id));
  }

  lemma TailVersions()
    ensures Versions([MoveCkConstraints, UpdateSchemaVersion]) == 1
  {
    assert [MoveCkConstraints, UpdateSchemaVersion] == [MoveCkConstraints] + [UpdateSchemaVersion];
    VersionsConcat([MoveCkConstraints], [UpdateSchemaVersion]);
  }

  lemma SumVersions(a: seq<Op>, b: seq<Op>, c: seq<Op>, d: seq<Op>)
    ensures Versions(a + b + c + d) == Versions(a) + Versions(b) + Versions(c) + Versions(d)
  {
    VersionsConcat(a + b + c, d);
    VersionsConcat(a + b, c);
    VersionsConcat(a, b);
  }

  lemma IndexVersions(s: Space, t: Trigger)
    requires Fires(s, t) && t.OnIndex?
    ensures Versions(OpsOf(s, t)) == 1
  {
    var mid := ChangeOps(s, t.iid, t.change);
    SumVersions(Head(t.change, IdOps(t.names, t.id), t.before), mid, t.after, [MoveCkConstraints, UpdateSchemaVersion]);
    HeadVersions(s, t.change, t.names, t.id, t.iid, t.before);
    NoVersions(mid);
    KeepingVersions(s, t.iid + 1, t.max + 1, t.after);
    TailVersions();
  }

  lemma SpaceVersions(s: Space, t: Trigger)
    requires Fires(s, t) && t.OnSpace?
    ensures Versions(OpsOf(s, t)) == 1
  {
    var head := [CheckSpaceFormat, ModifySpace(t.newDict), RebuildCkConstraints(t.checks)];
    VersionsConcat(head + t.moves, [UpdateSchemaVersion]);
    VersionsConcat(head, t.moves);
    NoVersions(head);
    KeepingVersions(s, 0, t.max + 1, t.moves);
  }

  /** The index and the space trigger count the schema version up by one. */
  lemma VersionsOfTrigger(s: Space, t: Trigger)
    requires Fires(s, t)
    ensures Versions(OpsOf(s, t)) == if t.OnTruncate? then 0 else 1
  {
    match t
    case OnIndex(_, _, _, _, _, _, _) => IndexVersions(s, t);
    case OnSpace(_, _, _, _) => SpaceVersions(s, t);
    case OnTruncate(_) => NoVersions(OpsOf(s, t));
  }

  /** A number above all that are used. */
  method FreshNumber(used: set<nat>) returns (n: nat)
    ensures forall x | x in used :: x < n
  {
    var todo := used;
    n := 0;
    while todo != {}
      invariant todo <= used && forall x | x in used && x !in todo :: x < n
    {
      var x :| x in todo;
      if n <= x { n := x + 1; }
      todo := todo - {x};
    }
  }

  // ---------------------------------------------------------------------------
  // What each trigger does
  // ---------------------------------------------------------------------------

  /** The index trigger has changed its index, its constraint name, and nothing else. */
  ghost predicate IndexChanged(w: World, v: World, iid: nat, change: Change, names: Names, id: int, way: nat -> Way, newDef: nat -> int)
  {
    && IsChanged(w, v, iid, change, newDef(iid))
    && (forall i: nat | i != iid && ObjectOf(w, i).Some? :: Kept(w, v, i, way(i), newDef(i)))
    && (forall i: nat | i != iid && ObjectOf(w, i).None? :: ObjectOf(v, i).None?)
    && w.cache in w.spaces && RestKept(w, v, w.spaces[w.cache].ck, w.spaces[w.cache].def, NamesLeft(w.spaces[w.cache].ids, names, id))
    && FieldNames(v) == FieldNames(w) && v.version == w.version + 1
  }

  /** The space trigger has changed definition, checks and field names, and kept all indexes. */
  ghost predicate SpaceChanged(w: World, v: World, fields: seq<string>, checks: seq<int>, def: int, way: nat -> Way, newDef: nat -> int)
  {
    && (forall i: nat | ObjectOf(w, i).Some? :: Kept(w, v, i, way(i), newDef(i)))
    && (forall i: nat | ObjectOf(w, i).None? :: ObjectOf(v, i).None?)
    && w.cache in w.spaces && RestKept(w, v, checks, def, w.spaces[w.cache].ids)
    && FieldNames(v) == Some(fields) && v.version == w.version + 1
  }

  /** The truncate trigger has made all indexes anew. */
  ghost predicate IsTruncated(w: World, v: World)
  {
    && (forall i: nat | ObjectOf(w, i).Some? :: IsMade(w, v, i, DefOf(w, i)))
    && (forall i: nat | ObjectOf(w, i).None? :: ObjectOf(v, i).None?)
    && w.cache in w.spaces && RestKept(w, v, w.spaces[w.cache].ck, w.spaces[w.cache].def, w.spaces[w.cache].ids)
    && FieldNames(v) == FieldNames(w) && v.version == w.version
  }

  /** The operation on checks of each list. */
  lemma ChecksOp(s: Space, t: Trigger) returns (k: nat)
    requires Fires(s, t)
    ensures k < |OpsOf(s, t)| && OpsOf(s, t)[k] == if t.OnSpace? then RebuildCkConstraints(t.checks) else MoveCkConstraints
  {
    var n := |OpsOf(s, t)|;
    k := if t.OnSpace? then 2 else if t.OnIndex? then n - 2 else n - 1;
  }

  lemma RestOfTrigger(w: World, t: Trigger, newDef: nat -> int, a: Alter)
    requires MadeFor(w, t, newDef, a)
    ensures var s := w.spaces[w.cache];
            RestKept(w, Do(w, a), if t.OnSpace? then t.checks else s.ck, a.blank.def, if t.OnIndex? then NamesLeft(s.ids, t.names, t.id) else s.ids)
    ensures Do(w, a).version == w.version + if t.OnTruncate? then 0 else 1
  {
    var s := w.spaces[w.cache];
    var k := ChecksOp(s, t);
    RestFate(w, t, newDef, a, k);
    TriggerNames(s, t);
    VersionsOfTrigger(s, t);
  }

  lemma NoOtherIndexes(w: World, t: Trigger, newDef: nat -> int, a: Alter, i: nat)
    requires MadeFor(w, t, newDef, a) && ObjectOf(w, i).None? && (t.OnIndex? ==> i != t.iid)
    ensures ObjectOf(Do(w, a), i).None?
  {
    NewIndexes(w, t, newDef, a);
  }

  lemma IndexEffect(w: World, t: Trigger, newDef: nat -> int, a: Alter, way: nat -> Way)
    requires MadeFor(w, t, newDef, a) && t.OnIndex? && a.blank.def == w.spaces[w.cache].def
    requires forall i: nat | i in w.spaces[w.cache].index && i != t.iid :: WayOp(w.spaces[w.cache], i, way(i)) in a.ops
    ensures IndexChanged(w, Do(w, a), t.iid, t.change, t.names, t.id, way, newDef)
  {
    ChangedFate(w, t, newDef, a);
    forall i: nat | i != t.iid && ObjectOf(w, i).Some? ensures Kept(w, Do(w, a), i, way(i), newDef(i)) { KeptFate(w, t, newDef, a, i, way(i)); }
    forall i: nat | i != t.iid && ObjectOf(w, i).None? ensures ObjectOf(Do(w, a), i).None? { NoOtherIndexes(w, t, newDef, a, i); }
    RestOfTrigger(w, t, newDef, a);
    NamesKept(w, t, newDef, a);
  }

  lemma SpaceEffect(w: World, t: Trigger, newDef: nat -> int, a: Alter, way: nat -> Way, fields: seq<string>)
    requires MadeFor(w, t, newDef, a) && t.OnSpace? && a.newNames == map[t.newDict := fields]
    requires forall i: nat | i in w.spaces[w.cache].index :: WayOp(w.spaces[w.cache], i, way(i)) in a.ops
    ensures SpaceChanged(w, Do(w, a), fields, t.checks, a.blank.def, way, newDef)
  {
    forall i: nat | ObjectOf(w, i).Some? ensures Kept(w, Do(w, a), i, way(i), newDef(i)) { KeptFate(w, t, newDef, a, i, way(i)); }
    forall i: nat | ObjectOf(w, i).None? ensures ObjectOf(Do(w, a), i).None? { NoOtherIndexes(w, t, newDef, a, i); }
    RestOfTrigger(w, t, newDef, a);
    NamesChanged(w, t, newDef, a);
  }

  lemma TruncateEffect(w: World, t: Trigger, newDef: nat -> int, a: Alter)
    requires MadeFor(w, t, newDef, a) && t.OnTruncate? && a.blank.def == w.spaces[w.cache].def
    ensures IsTruncated(w, Do(w, a))
  {
    forall i: nat | ObjectOf(w, i).Some? ensures IsMade(w, Do(w, a), i, DefOf(w, i)) { TruncatedFate(w, t, newDef, a, i); }
    forall i: nat | ObjectOf(w, i).None? ensures ObjectOf(Do(w, a), i).None? { NoOtherIndexes(w, t, newDef, a, i); }
    RestOfTrigger(w, t, newDef, a);
    NamesKept(w, t, newDef, a);
  }

  /** Amend the key list and create the new version from it. */
  method PrepareAlter(e: Engine, ops: seq<Op>, ghost t: Trigger, newDef: nat -> int, def: int, newNames: map<nat, seq<string>>) returns (a: Alter)
    requires Sound(e.View()) && Fires(e.spaces[e.cache], t) && ops == OpsOf(e.spaces[e.cache], t)
    requires newNames.Keys !! e.names.Keys && newNames.Keys == if t.OnSpace? then {t.newDict} else {}
    ensures MadeFor(e.View(), t, newDef, a) && a.ops == ops && a.newNames == newNames && a.blank.def == def
  {
    var s := e.spaces[e.cache];
    forall i | i in s.index ensures s.index[i] in e.defs { assert s.index[i] in s.index.Values; }
    var keys := map i | i in s.index :: e.defs[s.index[i]];
    keys := AmendKeyList(keys, ops, newDef);
    var free := FreshNumber(e.defs.Keys);
    var newSpace := FreshNumber(e.spaces.Keys);
    var blank, newDefs := NewSpace(keys, s.dict, def, free);
    DictsOfTrigger(s, t);
    a := Alter(e.cache, newSpace, blank, newDefs, newNames, ops);
  }

  /** Do the alter of a trigger and, if the statement fails later, roll it back. */
  method Finish(e: Engine, a: Alter, ghost t: Trigger, ghost newDef: nat -> int, rollback: bool)
    requires MadeFor(e.View(), t, newDef, a)
    modifies e
    ensures Sound(e.View())
    ensures e.View() == if rollback then old(e.View()).(version := old(e.View()).version + Versions(a.ops)) else Do(old(e.View()), a)
  {
    TriggerKeepsSound(e.View(), t, newDef, a);
    if rollback {
      AlterAndRollBack(e, a, t, newDef);
    } else {
      var a' := e.AlterSpaceDo(a);
    }
  }

  /** What the index trigger has checked: an index is made exactly if it is not there, and constraint names are free or known. */
  predicate CanChange(s: Space, iid: nat, change: Change, names: Names)
  {
    && (change.Made? <==> iid !in s.index)
    && (names.after.Some? && names.before != names.after ==> names.after.value !in s.ids)
    && (names.before.Some? ==> names.before.value in s.ids)
  }

  /** The alter of the index trigger. */
  method PrepareIndex(e: Engine, iid: nat, change: Change, names: Names, id: int, way: nat -> Way, newDef: nat -> int)
    returns (a: Alter, ghost t: Trigger)
    requires Sound(e.View()) && CanChange(e.spaces[e.cache], iid, change, names)
    ensures MadeFor(e.View(), t, newDef, a) && Versions(a.ops) == 1
    ensures IndexChanged(e.View(), Do(e.View(), a), iid, change, names, id, way, newDef)
  {
    var s := e.spaces[e.cache];
    var max := FreshNumber(s.index.Keys + {iid});
    var ops;
    ops, t := IndexOps(s, iid, max, change, names, id, way);
    a := PrepareAlter(e, ops, t, newDef, s.def, map[]);
    VersionsOfTrigger(s, t);
    IndexEffect(e.View(), t, newDef, a, way);
  }

  /** `on_replace_dd_index`. */
  method IndexTrigger(e: Engine, iid: nat, change: Change, names: Names, id: int, way: nat -> Way, newDef: nat -> int, rollback: bool)
    returns (ghost t: Trigger, ghost a: Alter)
    requires Sound(e.View()) && CanChange(e.spaces[e.cache], iid, change, names)
    modifies e
    ensures Sound(e.View()) && MadeFor(old(e.View()), t, newDef, a)
    ensures e.View() == if rollback then old(e.View()).(version := old(e.View()).version + 1) else Do(old(e.View()), a)
    ensures !rollback ==> IndexChanged(old(e.View()), e.View(), iid, change, names, id, way, newDef)
  {
    var alter;
    alter, t := PrepareIndex(e, iid, change, names, id, way, newDef);
    a := alter;
    Finish(e, alter, t, newDef, rollback);
  }

  /** The alter of the space trigger. */
  method PrepareSpace(e: Engine, fields: seq<string>, checks: seq<int>, def: int, way: nat -> Way, newDef: nat -> int)
    returns (a: Alter, ghost t: Trigger)
    requires Sound(e.View())
    ensures MadeFor(e.View(), t, newDef, a) && Versions(a.ops) == 1
    ensures SpaceChanged(e.View(), Do(e.View(), a), fields, checks, def, way, newDef)
  {
    var s := e.spaces[e.cache];
    var max := FreshNumber(s.index.Keys);
    var newDict := FreshNumber(e.names.Keys);
    var ops;
    ops, t := SpaceOps(s, max, newDict, checks, way);
    a := PrepareAlter(e, ops, t, newDef, def, map[newDict := fields]);
    VersionsOfTrigger(s, t);
    SpaceEffect(e.View(), t, newDef, a, way, fields);
  }

  /** `on_replace_dd_space`, when a space is changed. */
  method SpaceTrigger(e: Engine, fields: seq<string>, checks: seq<int>, def: int, way: nat -> Way, newDef: nat -> int, rollback: bool)
    returns (ghost t: Trigger, ghost a: Alter)
    requires Sound(e.View())
    modifies e
    ensures Sound(e.View()) && MadeFor(old(e.View()), t, newDef, a)
    ensures e.View() == if rollback then old(e.View()).(version := old(e.View()).version + 1) else Do(old(e.View()), a)
    ensures !rollback ==> SpaceChanged(old(e.View()), e.View(), fields, checks, def, way, newDef)
  {
    var alter;
    alter, t := PrepareSpace(e, fields, checks, def, way, newDef);
    a := alter;
    Finish(e, alter, t, newDef, rollback);
  }

  /** `on_replace_dd_truncate`. */
  method TruncateTrigger(e: Engine, iids: seq<nat>, newDef: nat -> int, rollback: bool) returns (ghost t: Trigger, ghost a: Alter)
    requires Sound(e.View()) && forall i | i in iids :: i in e.spaces[e.cache].index
    modifies e
    ensures Sound(e.View()) && MadeFor(old(e.View()), t, newDef, a)
    ensures e.View() == if rollback then old(e.View()) else Do(old(e.View()), a)
    ensures !rollback ==> IsTruncated(old(e.View()), e.View())
  {
    var s := e.spaces[e.cache];
    var ops, alter;
    ops, t := TruncateOps(s, iids);
    alter := PrepareAlter(e, ops, t, newDef, s.def, map[]);
    VersionsOfTrigger(s, t);
    a := alter;
    TruncateEffect(e.View(), t, newDef, a);
    Finish(e, alter, t, newDef, rollback);
  }
}
