/**
 A run in which the lock does not help: an alter prepares its new version, starting from that
 of an alter which is not yet written, and the latter is rolled back in the meantime.
 */
module LockExample {
  import opened Options
  import opened AlterSpace
  import opened AlterTriggers
  import opened AlterCommits

  function Empty(): Space
  {
    Space(map[], [], [], [], 0, [], 0, map[], 0, 0)
  }

  function Start(): World
  {
    World(0, map[0 := Empty()], map[], map[0 := []], 0)
  }

  /** The truncation of a space without indexes, from one version to another. */
  function Truncation(oldSpace: nat, newSpace: nat): Alter
  {
    Alter(oldSpace, newSpace, Empty(), map[], map[], [MoveCkConstraints])
  }

  function NoDefs(iid: nat): int
  {
    0
  }

  lemma TruncationFires(w: World, newSpace: nat)
    requires w.cache in w.spaces && w.spaces[w.cache].index == map[] && w.spaces[w.cache].dict == 0 && 0 in w.names && newSpace !in w.spaces
    ensures MadeFor(w, OnTruncate([]), NoDefs, Truncation(w.cache, newSpace))
  {
    var s, a := w.spaces[w.cache], Truncation(w.cache, newSpace);
    NoOps(s);
    NothingAmended(map[], [MoveCkConstraints]);
    assert KeyList(w, s) == map[];
    assert a.ops == OpsOf(s, OnTruncate([]));
  }

  lemma NoOps(s: Space)
    ensures OpsOf(s, OnTruncate([])) == [MoveCkConstraints]
  {
  }

  lemma NothingAmended(keys: map<nat, int>, ops: seq<Op>)
    requires |ops| == 1 && ops[0].MoveCkConstraints?
    ensures AlterDefs(keys, ops, NoDefs) == keys && Dicts(ops) == {}
  {
    assert ops[..0] == [];
  }

  lemma SomeValue(m: map<nat, nat>)
    ensures m != map[] ==> m.Values != {}
  {
    if i :| i in m { assert m[i] in m.Values; }
  }

  /** Truncating leaves a version without indexes on the same dictionary, so the next truncation can start from it. */
  lemma TruncationRepeats(w: World, a: Alter, newSpace: nat)
    requires Startable(w, a) && w.spaces[w.cache].index == map[] && a.newDefs == map[] && a.blank.dict == 0
    requires 0 in w.names && newSpace !in w.spaces && newSpace != a.newSpace
    ensures MadeFor(Do(w, a), OnTruncate([]), NoDefs, Truncation(a.newSpace, newSpace))
  {
    DoneKeys(w, a);
    var u := Do(w, a);
    assert u.spaces[a.newSpace].index.Values <= w.spaces[w.cache].index.Values + a.newDefs.Keys == {};
    SomeValue(u.spaces[a.newSpace].index);
    TruncationFires(u, newSpace);
  }

  /** A run of four steps at the end of which `b` holds the lock, and the version that it is to replace is gone. */
  ghost predicate IsOvertaken(w0: World, b: Alter, run: seq<State>, actions: seq<Action>)
  {
    && IsRun(run, actions) && |run| == 5 && run[0] == Initial(w0)
    && run[4].lock == Some(b) && run[4].rolled && b.oldSpace !in run[4].w.spaces
  }

  lemma Overtaken(w0: World, t: Trigger, newDef: nat -> int, a: Alter, t': Trigger, newDef': nat -> int, b: Alter)
    returns (run: seq<State>, actions: seq<Action>)
    requires Alone(w0) && MadeFor(w0, t, newDef, a) && Startable(w0, a) && MadeFor(Do(w0, a), t', newDef', b)
    ensures IsOvertaken(w0, b, run, actions)
  {
    var s0 := Initial(w0);
    var s1, s2 := FirstDone(s0, t, newDef, a);
    BothThere(w0, a);
    var s3, s4 := SecondOvertaken(s2, t', newDef', b);
    run, actions := FourSteps(s0, Prepare(t, newDef, a), s1, Finish, s2, Prepare(t', newDef', b), s3, RollbackLast, s4);
  }

  lemma BothThere(w: World, a: Alter)
    requires Startable(w, a)
    ensures var u := Do(w, a); u.cache == a.newSpace && Done(w, a).oldSpace in u.spaces && Done(w, a).newSpace in u.spaces
    ensures a.newSpace !in Rollback(Do(w, a), Done(w, a)).spaces
  {
    RollbackIsInverse(w, a);
  }

  lemma FirstDone(s: State, t: Trigger, newDef: nat -> int, a: Alter) returns (s1: State, s2: State)
    requires s.lock == None && s.pending == [] && s.started == [] && MadeFor(s.w, t, newDef, a) && Startable(s.w, a)
    ensures Next(s, s1, Prepare(t, newDef, a)) && Next(s1, s2, Finish)
    ensures s2 == s.(w := Do(s.w, a), pending := [Done(s.w, a)], started := [a], rolled := false)
  {
    s1 := s.(lock := Some(a), rolled := false);
    s2 := s1.(w := Do(s.w, a), pending := s1.pending + [Done(s.w, a)], lock := None, started := s1.started + [a]);
  }

  lemma SecondOvertaken(s: State, t: Trigger, newDef: nat -> int, b: Alter) returns (s1: State, s2: State)
    requires s.lock == None && |s.pending| == |s.started| == 1 && MadeFor(s.w, t, newDef, b)
    requires s.pending[0].oldSpace in s.w.spaces && s.pending[0].newSpace in s.w.spaces
    ensures Next(s, s1, Prepare(t, newDef, b)) && Next(s1, s2, RollbackLast)
    ensures s2.lock == Some(b) && s2.rolled && s2.w == Rollback(s.w, s.pending[0])
  {
    s1 := s.(lock := Some(b), rolled := false);
    s2 := s1.(w := Rollback(s.w, s.pending[0]), pending := s.pending[..0], started := s.started[..0], rolled := true);
  }

  lemma FourSteps(s0: State, a0: Action, s1: State, a1: Action, s2: State, a2: Action, s3: State, a3: Action, s4: State)
    returns (run: seq<State>, actions: seq<Action>)
    requires Next(s0, s1, a0) && Next(s1, s2, a1) && Next(s2, s3, a2) && Next(s3, s4, a3)
    ensures IsRun(run, actions) && |run| == 5 && run[0] == s0 && run[4] == s4
  {
    run, actions := [s0, s1, s2, s3, s4], [a0, a1, a2, a3];
    assert Next(run[0], run[0 + 1], actions[0]) && Next(run[1], run[1 + 1], actions[1]) && Next(run[2], run[2 + 1], actions[2]) && Next(run[3], run[3 + 1], actions[3]);
  }

  lemma OvertakenFrom(w: World, m: nat, n: nat) returns (run: seq<State>, actions: seq<Action>)
    requires Alone(w) && w.spaces[w.cache].index == map[] && w.spaces[w.cache].dict == 0 && m !in w.spaces && n !in w.spaces && m != n
    ensures IsOvertaken(w, Truncation(m, n), run, actions)
  {
    TruncationFires(w, m);
    TriggersAreStartable(w, OnTruncate([]), NoDefs, Truncation(w.cache, m));
    TruncationRepeats(w, Truncation(w.cache, m), n);
    run, actions := Overtaken(w, OnTruncate([]), NoDefs, Truncation(w.cache, m), OnTruncate([]), NoDefs, Truncation(m, n));
  }

  /** Nobody else has taken the lock, and yet the version that the second alter is to replace is gone. */
  lemma RolledBackUnderLock() returns (run: seq<State>, actions: seq<Action>)
    ensures Alone(Start()) && IsOvertaken(Start(), Truncation(1, 2), run, actions)
  {
    run, actions := OvertakenFrom(Start(), 1, 2);
  }
}
