/**
 Commits and the lock.  When an alter is committed, its old version is deleted with the index
 objects that are left in it; while it waits for that, later alters may start from its new
 version; and an alter that prepares its new version holds the lock of the space, but lets
 others be committed or rolled back.  On every run: every index object is in exactly one slot
 of one live version; the world is the one that the committed alters make one at a time, with
 those that are pending on top; and an alter that has prepared finds the version that it is to
 replace in the cache exactly if there has been no rollback in the meantime.
 */
module AlterCommits {
  import opened Options
  import opened AlterSpace
  import opened AlterTriggers

  // ---------------------------------------------------------------------------
  // Every object has one owner
  // ---------------------------------------------------------------------------

  ghost predicate Owns(w: World, v: nat, d: nat)
  {
    v in w.spaces && d in w.spaces[v].index.Values
  }

  /** The index objects that there are, are those of the live versions, each in one slot of one of them. */
  ghost predicate Owned(w: World)
  {
    && w.cache in w.spaces
    && (forall v | v in w.spaces :: Injective(w.spaces[v].index))
    && (forall u, v, d: nat | Owns(w, u, d) && Owns(w, v, d) :: u == v)
    && (forall d: nat :: d in w.defs <==> exists v :: Owns(w, v, d))
  }

  ghost function Held(p: Pair): set<nat>
  {
    p.o.index.Values + p.n.index.Values
  }

  lemma SwapHeld(p: Pair, iid: nat)
    ensures Held(SwapIndex(p, iid)) == Held(p) && (Separate(p) ==> Separate(SwapIndex(p, iid)))
  {
    var q := SwapIndex(p, iid);
    forall d: nat ensures d in Held(p) ==> d in Held(q) { if d in Held(p) { SlotHeld(p, q, iid, d); } }
    forall d: nat ensures d in Held(q) ==> d in Held(p) { if d in Held(q) { SlotHeld(q, p, iid, d); } }
  }

  lemma SlotHeld(p: Pair, q: Pair, iid: nat, d: nat)
    requires d in Held(p) && At(q.n.index, iid) == At(p.o.index, iid) && At(q.o.index, iid) == At(p.n.index, iid)
    requires forall i: nat | i != iid :: At(q.n.index, i) == At(p.n.index, i) && At(q.o.index, i) == At(p.o.index, i)
    ensures d in Held(q)
  {
    if d in p.o.index.Values {
      var i :| i in p.o.index && p.o.index[i] == d;
      assert At(p.o.index, i) == Some(d);
      if i == iid { assert q.n.index[i] == d; } else { assert q.o.index[i] == d; }
    } else {
      var i :| i in p.n.index && p.n.index[i] == d;
      assert At(p.n.index, i) == Some(d);
      if i == iid { assert q.o.index[i] == d; } else { assert q.n.index[i] == d; }
    }
  }

  /** An operation moves index objects between the versions, and none is lost or doubled. */
  lemma {:induction false} AllHeld(p: Pair, ops: seq<Op>)
    requires Separate(p)
    ensures Separate(AlterAll(p, ops)) && Held(AlterAll(p, ops)) == Held(p)
  {
    if ops != [] {
      var n := |ops| - 1;
      AllHeld(p, ops[..n]);
      OneHeld(AlterAll(p, ops[..n]), ops[n]);
    }
  }

  lemma OneHeld(p: Pair, op: Op)
    requires Separate(p)
    ensures Separate(AlterPair(p, op)) && Held(AlterPair(p, op)) == Held(p)
  {
    if op.MoveIndex? || op.ModifyIndex? {
      SwapHeld(p, op.iid);
      assert Indexes(AlterPair(p, op)) in {Indexes(p), Indexes(SwapIndex(p, op.iid))};
    } else {
      assert Indexes(AlterPair(p, op)) == Indexes(p);
    }
  }

  ghost function Indexes(p: Pair): (map<nat, nat>, map<nat, nat>)
  {
    (p.o.index, p.n.index)
  }

  /** The operations exchange definitions and field names, and make or delete none. */
  lemma {:induction false} AllKeys(p: Pair, ops: seq<Op>)
    requires Separate(p) && Held(p) <= p.defs.Keys && p.n.dict in p.names
    requires forall op | op in ops :: OpOK(p, op) && (op.ModifySpace? ==> op.newDict in p.names)
    ensures AlterAll(p, ops).defs.Keys == p.defs.Keys && AlterAll(p, ops).names.Keys == p.names.Keys && AlterAll(p, ops).n.dict == p.n.dict
  {
    if ops != [] {
      var n := |ops| - 1;
      assert ops[n] in ops && forall op | op in ops[..n] :: op in ops;
      AllKeys(p, ops[..n]);
      AllHeld(p, ops[..n]);
      OneKeys(p, AlterAll(p, ops[..n]), ops[n]);
    }
  }

  lemma OneKeys(p: Pair, q: Pair, op: Op)
    requires OpOK(p, op) && Held(q) == Held(p) <= q.defs.Keys && q.n.dict in q.names && (op.ModifySpace? ==> op.newDict in q.names)
    ensures AlterPair(q, op).defs.Keys == q.defs.Keys && AlterPair(q, op).names.Keys == q.names.Keys && AlterPair(q, op).n.dict == q.n.dict
  {
    if op.ModifyIndex? && op.iid in q.n.index {
      assert p.o.index[op.iid] in Held(p) && q.n.index[op.iid] in Held(q);
    }
  }

  /** What an alter makes of the objects and dictionaries: nothing is lost, and what is new is what was created for it. */
  lemma DoneKeys(w: World, a: Alter)
    requires Startable(w, a)
    ensures var u := Do(w, a);
            && u.cache == a.newSpace && u.spaces.Keys == w.spaces.Keys + {a.newSpace}
            && u.defs.Keys == w.defs.Keys + a.newDefs.Keys && u.names.Keys == w.names.Keys + a.newNames.Keys
            && (forall x | x in w.spaces && x != a.oldSpace :: u.spaces[x] == w.spaces[x])
            && u.spaces[a.newSpace].dict == a.blank.dict
            && u.spaces[a.oldSpace].index.Values + u.spaces[a.newSpace].index.Values == w.spaces[a.oldSpace].index.Values + a.newDefs.Keys
            && Injective(u.spaces[a.oldSpace].index) && Injective(u.spaces[a.newSpace].index)
            && u.spaces[a.oldSpace].index.Values !! u.spaces[a.newSpace].index.Values
  {
    var p := PairOf(Created(w, a), a);
    CreatedPair(w, a);
    CreatedIsSeparate(w, a);
    forall op | op in a.ops ensures OpOK(p, op) && (op.ModifySpace? ==> op.newDict in p.names) {
      var k :| 0 <= k < |a.ops| && a.ops[k] == op;
      if op.ModifySpace? { DictIsIn(a.ops, k); }
    }
    AllKeys(p, a.ops);
    AllHeld(p, a.ops);
    SeparateValues(AlterAll(p, a.ops));
  }

  lemma SeparateValues(p: Pair)
    requires Separate(p)
    ensures Injective(p.o.index) && Injective(p.n.index) && p.o.index.Values !! p.n.index.Values
  {
  }

  /** An alter keeps every object in exactly one place. */
  lemma DoOwned(w: World, a: Alter)
    requires Startable(w, a) && Owned(w)
    ensures Owned(Do(w, a))
  {
    var u := Do(w, a);
    DoneKeys(w, a);
    forall d: nat ensures d in u.defs <==> exists v :: Owns(u, v, d) { OwnerAfter(w, a, d); }
    forall x, y, d: nat | Owns(u, x, d) && Owns(u, y, d) ensures x == y { OneOwner(w, a, x, y, d); }
  }

  lemma OwnerAfter(w: World, a: Alter, d: nat)
    requires Startable(w, a) && Owned(w)
    ensures d in Do(w, a).defs <==> exists v :: Owns(Do(w, a), v, d)
  {
    var u := Do(w, a);
    if d in u.defs { HasOwner(w, a, d); }
    if v :| Owns(u, v, d) {
      DefsAfter(w, a, v, d);
    }
  }

  lemma HasOwner(w: World, a: Alter, d: nat)
    requires Startable(w, a) && Owned(w) && d in Do(w, a).defs
    ensures exists v :: Owns(Do(w, a), v, d)
  {
    DoneKeys(w, a);
    if d in a.newDefs || Owns(w, a.oldSpace, d) {
      assert Owns(Do(w, a), a.oldSpace, d) || Owns(Do(w, a), a.newSpace, d);
    } else {
      var v :| Owns(w, v, d);
      assert Owns(Do(w, a), v, d);
    }
  }

  lemma DefsAfter(w: World, a: Alter, v: nat, d: nat)
    requires Startable(w, a) && Owned(w) && Owns(Do(w, a), v, d)
    ensures d in Do(w, a).defs
  {
    DoneKeys(w, a);
    if v == a.oldSpace || v == a.newSpace {
      assert d in w.spaces[a.oldSpace].index.Values + a.newDefs.Keys;
    } else {
      assert Owns(w, v, d);
    }
  }

  /** Who has an object after the alter has it from where. */
  lemma HadFrom(w: World, a: Alter, x: nat, d: nat)
    requires Startable(w, a) && Owned(w) && Owns(Do(w, a), x, d)
    ensures if x == a.oldSpace || x == a.newSpace then Owns(w, a.oldSpace, d) || d !in w.defs else Owns(w, x, d) && d in w.defs
  {
    DoneKeys(w, a);
    if x == a.oldSpace || x == a.newSpace {
      assert d in w.spaces[a.oldSpace].index.Values + a.newDefs.Keys;
    } else {
      assert Owns(w, x, d);
    }
  }

  lemma NotBoth(w: World, a: Alter, d: nat)
    requires Startable(w, a)
    ensures !(Owns(Do(w, a), a.oldSpace, d) && Owns(Do(w, a), a.newSpace, d))
  {
    DoneKeys(w, a);
  }

  lemma OneOwner(w: World, a: Alter, x: nat, y: nat, d: nat)
    requires Startable(w, a) && Owned(w) && Owns(Do(w, a), x, d) && Owns(Do(w, a), y, d)
    ensures x == y
  {
    HadFrom(w, a, x, d);
    HadFrom(w, a, y, d);
    NotBoth(w, a, d);
  }

  /** What is deleted belongs to the deleted version: all other versions keep their objects, with their definitions. */
  lemma ForgetKeeps(w: World, x: nat, dicts: set<nat>)
    requires Owned(w) && x in w.spaces && x != w.cache
    ensures Owned(Forget(w, x, dicts))
    ensures forall v, d: nat | v != x && Owns(w, v, d) :: Owns(Forget(w, x, dicts), v, d) && Forget(w, x, dicts).defs[d] == w.defs[d]
    ensures forall d: nat | Owns(w, x, d) :: d !in Forget(w, x, dicts).defs
  {
    var u := Forget(w, x, dicts);
    forall v, d: nat ensures Owns(u, v, d) <==> v != x && Owns(w, v, d) {}
    forall d: nat ensures d in u.defs <==> exists v :: Owns(u, v, d) {
      if d in u.defs {
        var v :| Owns(w, v, d);
        assert Owns(u, v, d);
      }
      if v :| Owns(u, v, d) { assert Owns(w, v, d) && !Owns(w, x, d); }
    }
    forall v, d: nat | v != x && Owns(w, v, d) ensures Owns(u, v, d) && d in u.defs && u.defs[d] == w.defs[d] { assert !Owns(w, x, d) && d in w.defs; }
  }

  // ---------------------------------------------------------------------------
  // An old version can be deleted before or after a later alter
  // ---------------------------------------------------------------------------

  ghost function Less(p: Pair, objects: set<nat>, dicts: set<nat>): Pair
  {
    p.(defs := p.defs - objects, names := p.names - dicts)
  }

  lemma SwapLess<V>(m: map<nat, V>, a: nat, b: nat, xs: set<nat>)
    requires a !in xs && b !in xs
    ensures SwapValues(m - xs, a, b) == SwapValues(m, a, b) - xs
  {
  }

  /** The operation uses none of the objects and dictionaries. */
  ghost predicate Avoids(op: Op, objects: set<nat>, dicts: set<nat>)
  {
    (op.ModifyIndex? ==> op.oldIndex !in objects) && (op.ModifySpace? ==> op.newDict !in dicts)
  }

  lemma OneLess(p: Pair, op: Op, objects: set<nat>, dicts: set<nat>)
    requires Held(p) !! objects && p.n.dict !in dicts && Avoids(op, objects, dicts)
    ensures AlterPair(Less(p, objects, dicts), op) == Less(AlterPair(p, op), objects, dicts) && AlterOp(Less(p, objects, dicts), op) == AlterOp(p, op)
    ensures AlterPair(p, op).n.dict == p.n.dict
  {
    if op.ModifySpace? { SwapLess(p.names, p.n.dict, op.newDict, dicts); }
    if op.ModifyIndex? && op.iid in p.n.index {
      assert p.n.index[op.iid] in Held(p);
      SwapLess(p.defs, op.oldIndex, p.n.index[op.iid], objects);
    }
  }

  lemma {:induction false} AllLess(p: Pair, ops: seq<Op>, objects: set<nat>, dicts: set<nat>)
    requires Separate(p) && Held(p) !! objects && p.n.dict !in dicts && forall op | op in ops :: Avoids(op, objects, dicts)
    ensures AlterAll(Less(p, objects, dicts), ops) == Less(AlterAll(p, ops), objects, dicts)
    ensures AlteredOps(Less(p, objects, dicts), ops) == AlteredOps(p, ops) && AlterAll(p, ops).n.dict == p.n.dict
  {
    if ops != [] {
      var n := |ops| - 1;
      assert ops[n] in ops && forall op | op in ops[..n] :: op in ops;
      AllLess(p, ops[..n], objects, dicts);
      AllHeld(p, ops[..n]);
      OneLess(AlterAll(p, ops[..n]), ops[n], objects, dicts);
    }
  }

  /** The version `x` shares no objects with the cached one, and the dictionaries are not the one in use. */
  ghost predicate Spare(w: World, x: nat, dicts: set<nat>, dict: nat)
  {
    && x in w.spaces && w.cache in w.spaces && x != w.cache && w.spaces[x].index.Values !! w.spaces[w.cache].index.Values
    && w.spaces[x].index.Values <= w.defs.Keys && dicts <= w.names.Keys && dict !in dicts
  }

  lemma StaysSpare(w: World, x: nat, dicts: set<nat>, a: Alter)
    requires Startable(w, a) && Spare(w, x, dicts, a.blank.dict)
    ensures Spare(Do(w, a), x, dicts, a.blank.dict) && Do(w, a).spaces[x] == w.spaces[x]
  {
    DoneKeys(w, a);
    assert Do(w, a).spaces[a.newSpace].index.Values <= w.spaces[a.oldSpace].index.Values + a.newDefs.Keys;
  }

  lemma PairLess(w: World, x: nat, dicts: set<nat>, a: Alter)
    requires Startable(w, a) && Spare(w, x, dicts, a.blank.dict)
    ensures PairOf(Created(Forget(w, x, dicts), a), a) == Less(PairOf(Created(w, a), a), w.spaces[x].index.Values, dicts)
    ensures Held(PairOf(Created(w, a), a)) !! w.spaces[x].index.Values
  {
    PlusLess(w.defs, a.newDefs, w.spaces[x].index.Values);
    PlusLess(w.names, a.newNames, dicts);
  }

  lemma PlusLess<V>(m: map<nat, V>, more: map<nat, V>, xs: set<nat>)
    requires xs !! more.Keys
    ensures (m - xs) + more == (m + more) - xs
  {
  }

  lemma StillStartable(w: World, x: nat, dicts: set<nat>, a: Alter)
    requires Startable(w, a) && Spare(w, x, dicts, a.blank.dict)
    ensures Startable(Forget(w, x, dicts), a)
  {
    PairLess(w, x, dicts, a);
    forall k | 0 <= k < |a.ops| ensures OpOK(PairOf(Created(Forget(w, x, dicts), a), a), a.ops[k]) { assert OpOK(PairOf(Created(w, a), a), a.ops[k]); }
  }

  lemma OpsAvoid(w: World, x: nat, dicts: set<nat>, a: Alter, op: Op)
    requires Startable(w, a) && Spare(w, x, dicts, a.blank.dict) && op in a.ops
    ensures Avoids(op, w.spaces[x].index.Values, dicts)
  {
    var k :| 0 <= k < |a.ops| && a.ops[k] == op;
    assert OpOK(PairOf(Created(w, a), a), a.ops[k]);
    if op.ModifySpace? { DictIsIn(a.ops, k); }
    if op.ModifyIndex? { assert w.spaces[w.cache].index[op.iid] in w.spaces[w.cache].index.Values; }
  }

  /** Deleting a spare version and doing an alter can change places. */
  lemma ForgetDo(w: World, x: nat, dicts: set<nat>, a: Alter)
    requires Startable(w, a) && Spare(w, x, dicts, a.blank.dict)
    ensures x in Do(w, a).spaces && Startable(Forget(w, x, dicts), a)
    ensures Do(Forget(w, x, dicts), a) == Forget(Do(w, a), x, dicts) && Done(Forget(w, x, dicts), a) == Done(w, a)
  {
    var p, objects := PairOf(Created(w, a), a), w.spaces[x].index.Values;
    CreatedIsSeparate(w, a);
    PairLess(w, x, dicts, a);
    StillStartable(w, x, dicts, a);
    StaysSpare(w, x, dicts, a);
    forall op | op in a.ops ensures Avoids(op, objects, dicts) { OpsAvoid(w, x, dicts, a, op); }
    AllLess(p, a.ops, objects, dicts);
    SpacesLess(w.spaces, a, x, SwapRest(AlterAll(p, a.ops)));
    assert SwapRest(Less(AlterAll(p, a.ops), objects, dicts)) == Less(SwapRest(AlterAll(p, a.ops)), objects, dicts);
  }

  lemma SpacesLess(spaces: map<nat, Space>, a: Alter, x: nat, p: Pair)
    requires x != a.oldSpace && x != a.newSpace
    ensures (spaces - {x})[a.newSpace := a.blank][a.oldSpace := p.o][a.newSpace := p.n] == spaces[a.newSpace := a.blank][a.oldSpace := p.o][a.newSpace := p.n] - {x}
  {
  }

  // ---------------------------------------------------------------------------
  // Stacks of pending alters
  // ---------------------------------------------------------------------------

  /** The pending alters are these, each as `alter_space_do` has left it. */
  ghost predicate PendingOf(w: World, alters: seq<Alter>, pending: seq<Alter>)
    requires StackOK(w, alters)
    decreases |alters|
  {
    && |pending| == |alters|
    && (alters != [] ==> pending[0] == Done(w, alters[0]) && PendingOf(Do(w, alters[0]), alters[1..], pending[1..]))
  }

  /** The new versions of all alters are on the dictionary. */
  ghost predicate SameDict(alters: seq<Alter>, dict: nat)
  {
    forall k | 0 <= k < |alters| :: alters[k].blank.dict == dict
  }

  lemma SameDictLess(alters: seq<Alter>, dict: nat)
    requires SameDict(alters, dict) && alters != []
    ensures SameDict(alters[..|alters| - 1], dict)
  {
  }

  lemma SameDictMore(alters: seq<Alter>, a: Alter, dict: nat)
    requires SameDict(alters, dict) && a.blank.dict == dict
    ensures SameDict(alters + [a], dict)
  {
  }

  lemma {:induction false} ForgetStack(w: World, x: nat, dicts: set<nat>, dict: nat, alters: seq<Alter>, pending: seq<Alter>)
    requires StackOK(w, alters) && PendingOf(w, alters, pending) && Spare(w, x, dicts, dict) && SameDict(alters, dict)
    ensures StackOK(Forget(w, x, dicts), alters) && PendingOf(Forget(w, x, dicts), alters, pending)
    ensures Spare(DoStack(w, alters), x, dicts, dict) && DoStack(Forget(w, x, dicts), alters) == Forget(DoStack(w, alters), x, dicts)
    decreases |alters|
  {
    if alters != [] {
      ForgetDo(w, x, dicts, alters[0]);
      StaysSpare(w, x, dicts, alters[0]);
      ForgetStack(Do(w, alters[0]), x, dicts, dict, alters[1..], pending[1..]);
    }
  }

  lemma HeadFirst<T>(s: seq<T>, x: T)
    requires s != []
    ensures s + [x] == [s[0]] + (s[1..] + [x])
  {
  }

  lemma HeadOfFront<T>(s: seq<T>)
    requires |s| > 1
    ensures s[1..][..|s| - 2] == s[1..|s| - 1] && s[..|s| - 1] == [s[0]] + s[1..|s| - 1]
  {
  }

  lemma ConsStack(w: World, a: Alter, rest: seq<Alter>, pending: seq<Alter>)
    requires Startable(w, a) && StackOK(Do(w, a), rest) && PendingOf(Do(w, a), rest, pending)
    ensures StackOK(w, [a] + rest) && DoStack(w, [a] + rest) == DoStack(Do(w, a), rest) && PendingOf(w, [a] + rest, [Done(w, a)] + pending)
  {
    assert ([a] + rest)[1..] == rest && ([Done(w, a)] + pending)[1..] == pending;
  }

  lemma {:induction false} PushStack(w: World, alters: seq<Alter>, pending: seq<Alter>, a: Alter)
    requires StackOK(w, alters) && PendingOf(w, alters, pending) && Startable(DoStack(w, alters), a)
    ensures StackOK(w, alters + [a]) && DoStack(w, alters + [a]) == Do(DoStack(w, alters), a)
    ensures PendingOf(w, alters + [a], pending + [Done(DoStack(w, alters), a)])
    decreases |alters|
  {
    if alters == [] {
      ConsStack(w, a, [], []);
      assert alters + [a] == [a] + [] && pending + [Done(w, a)] == [Done(w, a)] + [];
    } else {
      var u, last := Do(w, alters[0]), Done(DoStack(w, alters), a);
      PushStack(u, alters[1..], pending[1..], a);
      ConsStack(w, alters[0], alters[1..] + [a], pending[1..] + [last]);
      HeadFirst(alters, a);
      HeadFirst(pending, last);
    }
  }

  /** The stack is the one without its last alter, and this alter on top. */
  ghost predicate OnTop(w: World, alters: seq<Alter>, pending: seq<Alter>)
    requires StackOK(w, alters) && |pending| == |alters| > 0
  {
    var n := |alters| - 1;
    && StackOK(w, alters[..n]) && PendingOf(w, alters[..n], pending[..n])
    && Startable(DoStack(w, alters[..n]), alters[n]) && DoStack(w, alters) == Do(DoStack(w, alters[..n]), alters[n])
    && pending[n] == Done(DoStack(w, alters[..n]), alters[n])
  }

  lemma {:induction false} PopStack(w: World, alters: seq<Alter>, pending: seq<Alter>)
    requires StackOK(w, alters) && PendingOf(w, alters, pending) && alters != []
    ensures OnTop(w, alters, pending)
    decreases |alters|
  {
    var n := |alters| - 1;
    if n > 0 {
      var u := Do(w, alters[0]);
      PopStack(u, alters[1..], pending[1..]);
      HeadOfFront(alters);
      HeadOfFront(pending);
      ConsStack(w, alters[0], alters[1..n], pending[1..n]);
    } else {
      assert alters[1..] == [];
    }
  }

  lemma {:induction false} StackOwned(w: World, alters: seq<Alter>)
    requires StackOK(w, alters) && Owned(w)
    ensures Owned(DoStack(w, alters))
    decreases |alters|
  {
    if alters != [] {
      DoOwned(w, alters[0]);
      StackOwned(Do(w, alters[0]), alters[1..]);
    }
  }

  /** All versions are on the dictionary of the first one. */
  lemma StackDict(w: World, alters: seq<Alter>, pending: seq<Alter>, dict: nat)
    requires StackOK(w, alters) && PendingOf(w, alters, pending) && w.cache in w.spaces && w.spaces[w.cache].dict == dict
    requires SameDict(alters, dict)
    ensures var u := DoStack(w, alters); u.cache in u.spaces && u.spaces[u.cache].dict == dict
  {
    if alters != [] {
      PopStack(w, alters, pending);
      DoneKeys(DoStack(w, alters[..|alters| - 1]), alters[|alters| - 1]);
    }
  }

  // ---------------------------------------------------------------------------
  // Runs
  // ---------------------------------------------------------------------------

  /**
   The world, the pending alters, the alter that holds the lock, and for the record: as what
   the pending ones were started, which have been committed, and whether there has been a
   rollback since the lock was taken.
   */
  datatype State = State(w: World, pending: seq<Alter>, lock: Option<Alter>, started: seq<Alter>, committed: seq<Alter>, rolled: bool)

  function Initial(w: World): State
  {
    State(w, [], None, [], [], false)
  }

  /**
   A trigger takes the lock and starts to prepare an alter; when that is done, the alter is done
   or has failed, and the lock is free again; at any time the oldest pending alter may be
   committed, or the latest one rolled back.
   */
  datatype Action = Prepare(t: Trigger, newDef: nat -> int, a: Alter) | Finish | Fail | CommitFirst | RollbackLast

  /** The versions of the first alter that is pending are there to be settled. */
  ghost predicate CanCommit(s: State)
  {
    |s.started| == |s.pending| > 0 && s.pending[0].oldSpace in s.w.spaces
  }

  /** The alter has its old version to work on. */
  ghost predicate CanFinish(s: State)
  {
    s.lock.Some? && s.lock.value.oldSpace in s.w.spaces && s.lock.value.oldSpace != s.lock.value.newSpace
  }

  ghost predicate CanRollBack(s: State)
  {
    var n := |s.pending| - 1;
    |s.started| == |s.pending| > 0 && s.pending[n].oldSpace in s.w.spaces && s.pending[n].newSpace in s.w.spaces
  }

  ghost predicate Next(s: State, s': State, action: Action)
  {
    var n := |s.pending| - 1;
    match action
    case Prepare(t, newDef, a) => s.lock == None && MadeFor(s.w, t, newDef, a) && s' == s.(lock := Some(a), rolled := false)
    case Finish =>
      && CanFinish(s)
      && var a := s.lock.value;
         s' == s.(w := Do(s.w, a), pending := s.pending + [Done(s.w, a)], lock := None, started := s.started + [a])
    case Fail => s.lock.Some? && s' == s.(lock := None)
    case CommitFirst =>
      && CanCommit(s)
      && s' == s.(w := Commit(s.w, s.pending[0]), pending := s.pending[1..], started := s.started[1..], committed := s.committed + [s.started[0]])
    case RollbackLast =>
      CanRollBack(s) && s' == s.(w := Rollback(s.w, s.pending[n]), pending := s.pending[..n], started := s.started[..n], rolled := true)
  }

  ghost predicate IsRun(run: seq<State>, actions: seq<Action>)
  {
    |run| == |actions| + 1 && forall k | 0 <= k < |actions| :: Next(run[k], run[k + 1], actions[k])
  }

  /** The world after one alter has been done and committed, with nothing in between. */
  ghost function Settled(w: World, a: Alter): World
    requires a.oldSpace in w.spaces && a.oldSpace != a.newSpace
  {
    Commit(Do(w, a), Done(w, a))
  }

  ghost predicate Settles(v: World, a: Alter, w: World)
  {
    Startable(v, a) && w == Settled(v, a)
  }

  /** The alters are done and committed one at a time. */
  ghost predicate Serially(ws: seq<World>, alters: seq<Alter>)
  {
    |ws| == |alters| + 1 && forall k | 0 <= k < |alters| :: Settles(ws[k], alters[k], ws[k + 1])
  }

  lemma SeriallyMore(ws: seq<World>, alters: seq<Alter>, a: Alter, w: World)
    requires Serially(ws, alters) && Settles(ws[|ws| - 1], a, w)
    ensures Serially(ws + [w], alters + [a])
  {
  }

  /** The world has one version, and nothing that does not belong to it. */
  ghost predicate Alone(w: World)
  {
    Owned(w) && w.spaces.Keys == {w.cache} && w.names.Keys == {w.spaces[w.cache].dict}
  }

  ghost predicate Explains(base: World, s: State)
  {
    && Alone(base) && StackOK(base, s.started) && PendingOf(base, s.started, s.pending) && SameWorld(s.w, DoStack(base, s.started))
    && SameDict(s.started, base.spaces[base.cache].dict)
    && (s.lock.Some? ==> LockOK(base, s, s.lock.value))
  }

  /** The alter that holds the lock can be done, unless there was a rollback, and then the version that it started from is gone. */
  ghost predicate LockOK(base: World, s: State, a: Alter)
    requires StackOK(base, s.started) && base.cache in base.spaces
  {
    if s.rolled then a.oldSpace !in s.w.spaces else Startable(DoStack(base, s.started), a) && a.blank.dict == base.spaces[base.cache].dict
  }

  lemma StartableAnyVersion(v: World, w: World, a: Alter)
    requires SameWorld(v, w) && Startable(v, a)
    ensures Startable(w, a) && SameWorld(Do(v, a), Do(w, a)) && Done(v, a) == Done(w, a)
  {
    assert PairOf(Created(v, a), a) == PairOf(Created(w, a), a);
  }

  lemma PrepareExplained(base: World, s: State, s': State, t: Trigger, newDef: nat -> int, a: Alter)
    requires Explains(base, s) && Next(s, s', Prepare(t, newDef, a))
    ensures Explains(base, s')
  {
    TriggersAreStartable(s.w, t, newDef, a);
    StartableAnyVersion(s.w, DoStack(base, s.started), a);
    StackDict(base, s.started, s.pending, base.spaces[base.cache].dict);
  }

  lemma FinishExplained(base: World, s: State, s': State)
    requires Explains(base, s) && Next(s, s', Finish)
    ensures Explains(base, s')
  {
    var a := s.lock.value;
    Pushed(base, s.w, s.started, s.pending, a);
    SameDictMore(s.started, a, base.spaces[base.cache].dict);
  }

  lemma Pushed(base: World, w: World, started: seq<Alter>, pending: seq<Alter>, a: Alter)
    requires StackOK(base, started) && PendingOf(base, started, pending) && SameWorld(w, DoStack(base, started)) && Startable(DoStack(base, started), a)
    ensures Startable(w, a) && StackOK(base, started + [a]) && PendingOf(base, started + [a], pending + [Done(w, a)])
    ensures SameWorld(Do(w, a), DoStack(base, started + [a]))
  {
    StartableAnyVersion(DoStack(base, started), w, a);
    PushStack(base, started, pending, a);
  }

  lemma RollbackExplained(base: World, s: State, s': State)
    requires Explains(base, s) && Next(s, s', RollbackLast)
    ensures Explains(base, s')
  {
    Popped(base, s.w, s.started, s.pending);
    SameDictLess(s.started, base.spaces[base.cache].dict);
  }

  /** Rolling the last alter back leads to the stack without it, and its new version, which was the cached one, is gone. */
  lemma Popped(base: World, w: World, started: seq<Alter>, pending: seq<Alter>)
    requires StackOK(base, started) && PendingOf(base, started, pending) && SameWorld(w, DoStack(base, started))
    requires var n := |pending| - 1; n >= 0 && pending[n].oldSpace in w.spaces && pending[n].newSpace in w.spaces
    ensures var n := |pending| - 1;
            && StackOK(base, started[..n]) && PendingOf(base, started[..n], pending[..n])
            && SameWorld(Rollback(w, pending[n]), DoStack(base, started[..n])) && w.cache !in Rollback(w, pending[n]).spaces
            && (forall v | v in Rollback(w, pending[n]).spaces :: v in w.spaces)
  {
    var n := |pending| - 1;
    PopStack(base, started, pending);
    Undone(DoStack(base, started[..n]), w, started[n]);
  }

  lemma Undone(u: World, w: World, a: Alter)
    requires Startable(u, a) && SameWorld(w, Do(u, a))
    ensures a.oldSpace in w.spaces && a.newSpace in w.spaces && SameWorld(Rollback(w, Done(u, a)), u)
    ensures w.cache !in u.spaces && forall v | v in u.spaces :: v in w.spaces
  {
    DoneKeys(u, a);
    RollbackIsInverse(u, a);
    RollbackIgnoresVersion(w, Do(u, a), Done(u, a));
  }

  lemma SettledAlone(w: World, a: Alter)
    requires Alone(w) && Startable(w, a) && a.blank.dict == w.spaces[w.cache].dict
    ensures Alone(Settled(w, a)) && Settled(w, a).spaces[Settled(w, a).cache].dict == a.blank.dict
    ensures Spare(Do(w, a), a.oldSpace, Dicts(a.ops), a.blank.dict) && Settled(w, a) == Forget(Do(w, a), a.oldSpace, Dicts(a.ops))
  {
    DoneKeys(w, a);
    DictsStay(PairOf(Created(w, a), a), a.ops);
    DoOwned(w, a);
    ForgetKeeps(Do(w, a), a.oldSpace, Dicts(a.ops));
    assert Settled(w, a).spaces.Keys == {a.newSpace};
  }

  lemma CommitExplained(base: World, s: State, s': State)
    requires Explains(base, s) && Next(s, s', CommitFirst)
    ensures Startable(base, s.started[0]) && Explains(Settled(base, s.started[0]), s')
  {
    var a, dict := s.started[0], base.spaces[base.cache].dict;
    SettledAlone(base, a);
    DictsStay(PairOf(Created(base, a), a), a.ops);
    ForgetStack(Do(base, a), a.oldSpace, Dicts(a.ops), dict, s.started[1..], s.pending[1..]);
    if s.lock.Some? && !s.rolled { StillStartable(DoStack(base, s.started), a.oldSpace, Dicts(a.ops), s.lock.value); }
  }

  /** The world of `s` comes from `w0` through the worlds `ws` and the pending alters. */
  ghost predicate Follows(w0: World, ws: seq<World>, s: State)
  {
    Serially(ws, s.committed) && ws[0] == w0 && Explains(ws[|ws| - 1], s)
  }

  lemma StepFollows(w0: World, ws: seq<World>, s: State, s': State, action: Action) returns (ws': seq<World>)
    requires Follows(w0, ws, s) && Next(s, s', action)
    ensures Follows(w0, ws', s')
  {
    var base := ws[|ws| - 1];
    ws' := ws;
    match action
    case Prepare(t, newDef, a) => PrepareExplained(base, s, s', t, newDef, a);
    case Finish => FinishExplained(base, s, s');
    case Fail =>
    case RollbackLast => RollbackExplained(base, s, s');
    case CommitFirst =>
      CommitExplained(base, s, s');
      SeriallyMore(ws, s.committed, s.started[0], Settled(base, s.started[0]));
      ws' := ws + [Settled(base, s.started[0])];
  }

  /**
   On every run: the world is the one that the committed alters make when they are done and
   committed one at a time, with the pending ones done on top of that.
   */
  lemma {:induction false} RunsAreSerial(w0: World, run: seq<State>, actions: seq<Action>, k: nat) returns (ws: seq<World>)
    requires IsRun(run, actions) && k < |run| && run[0] == Initial(w0) && Alone(w0)
    ensures Follows(w0, ws, run[k])
    decreases k
  {
    if k == 0 {
      ws := [w0];
    } else {
      ws := RunsAreSerial(w0, run, actions, k - 1);
      ws := StepFollows(w0, ws, run[k - 1], run[k], actions[k - 1]);
    }
  }

  /**
   On every run every index object is in exactly one slot of one live version; while alters
   are pending, the first one can be committed and the last one rolled back; and when none is,
   there is one version, and nothing is left of any other.
   */
  lemma NothingIsLost(w0: World, run: seq<State>, actions: seq<Action>, k: nat)
    requires IsRun(run, actions) && k < |run| && run[0] == Initial(w0) && Alone(w0)
    ensures Owned(run[k].w) && (run[k].pending == [] ==> Alone(run[k].w))
    ensures run[k].pending != [] ==> CanCommit(run[k]) && CanRollBack(run[k])
  {
    var ws := RunsAreSerial(w0, run, actions, k);
    ExplainedIsOwned(ws[|ws| - 1], run[k]);
    if run[k].pending != [] {
      ExplainedCanCommit(ws[|ws| - 1], run[k]);
      ExplainedCanRollBack(ws[|ws| - 1], run[k]);
    }
  }

  /**
   What the lock is for.  On every run, the version that an alter has started from is the cached
   one until the alter is done, and the alter can be done, if and only if there has been no
   rollback since it took the lock; after a rollback the version is gone.
   */
  lemma LockGuards(w0: World, run: seq<State>, actions: seq<Action>, k: nat)
    requires IsRun(run, actions) && k < |run| && run[0] == Initial(w0) && Alone(w0) && run[k].lock.Some?
    ensures var s, a := run[k], run[k].lock.value;
            && (a.oldSpace == s.w.cache <==> !s.rolled) && (a.oldSpace in s.w.spaces <==> !s.rolled)
            && (!s.rolled <==> CanFinish(s)) && (!s.rolled ==> Startable(s.w, a))
  {
    var ws := RunsAreSerial(w0, run, actions, k);
    var base, s := ws[|ws| - 1], run[k];
    ExplainedIsOwned(base, s);
    if !s.rolled { StartableAnyVersion(DoStack(base, s.started), s.w, s.lock.value); }
  }

  lemma ExplainedIsOwned(base: World, s: State)
    requires Explains(base, s)
    ensures Owned(s.w) && (s.pending == [] ==> Alone(s.w))
  {
    StackOwned(base, s.started);
    OwnedAnyVersion(DoStack(base, s.started), s.w);
  }

  lemma OwnedAnyVersion(v: World, w: World)
    requires SameWorld(w, v) && Owned(v)
    ensures Owned(w)
  {
    forall x, d: nat ensures Owns(w, x, d) <==> Owns(v, x, d) {}
  }

  lemma ExplainedCanCommit(base: World, s: State)
    requires Explains(base, s) && s.pending != []
    ensures CanCommit(s)
  {
    var a, dict := s.started[0], base.spaces[base.cache].dict;
    SettledAlone(base, a);
    ForgetStack(Do(base, a), a.oldSpace, Dicts(a.ops), dict, s.started[1..], s.pending[1..]);
  }

  lemma ExplainedCanRollBack(base: World, s: State)
    requires Explains(base, s) && s.pending != []
    ensures CanRollBack(s)
  {
    var n := |s.pending| - 1;
    PopStack(base, s.started, s.pending);
    DoneKeys(DoStack(base, s.started[..n]), s.started[n]);
  }
}
