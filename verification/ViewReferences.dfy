/**
 References of views.  Every space counts the places in the FROM clauses of live views
 that name it; a space that is counted can be neither dropped nor renamed.  Changes can be
 rolled back, last-first.
 */
module ViewReferences {
  import opened Options
  import opened FiniteSets

  /** A place in a FROM clause: a subquery without a name, or a name, maybe of a common table expression. */
  datatype Entry = Anonymous | Named(name: string, cte: bool)

  /** A space; a view has a FROM clause. */
  datatype Space = Space(name: string, refs: int, from: seq<Entry>)

  type Schema = map<nat, Space>

  /** The place names a space. */
  predicate Refers(e: Entry)
  {
    e.Named? && !e.cte
  }

  ghost predicate Live(s: Schema, n: string)
  {
    exists id :: id in s && s[id].name == n
  }

  ghost predicate NamesUnique(s: Schema)
  {
    forall i, j | i in s && j in s && s[i].name == s[j].name :: i == j
  }

  // ---------------------------------------------------------------------------
  // Counting
  // ---------------------------------------------------------------------------

  /** How often a FROM clause names a space. */
  function Occ(from: seq<Entry>, n: string): nat
  {
    if from == [] then 0
    else Occ(from[..|from| - 1], n) + if Refers(from[|from| - 1]) && from[|from| - 1].name == n then 1 else 0
  }

  /** The places in live views that name `n`. */
  ghost function Places(s: Schema, n: string): set<(nat, nat)>
  {
    set v, k | v in s && 0 <= k < |s[v].from| && s[v].from[k] == Named(n, false) :: (v, k)
  }

  ghost function PlacesOf(v: nat, from: seq<Entry>, n: string): set<(nat, nat)>
  {
    set k | 0 <= k < |from| && Refers(from[k]) && from[k].name == n :: (v, k)
  }

  lemma {:induction false} CountPlaces(v: nat, from: seq<Entry>, n: string)
    ensures |PlacesOf(v, from, n)| == Occ(from, n)
  {
    if from != [] {
      var k := |from| - 1;
      CountPlaces(v, from[..k], n);
      if Refers(from[k]) && from[k].name == n {
        assert PlacesOf(v, from, n) == PlacesOf(v, from[..k], n) + {(v, k)};
      } else {
        assert PlacesOf(v, from, n) == PlacesOf(v, from[..k], n);
      }
    } else {
      assert PlacesOf(v, from, n) == {};
    }
  }

  /** A new space adds the places of its FROM clause. */
  lemma PlacesAdded(s: Schema, v: nat, sp: Space, n: string)
    requires v !in s
    ensures |Places(s[v := sp], n)| == |Places(s, n)| + Occ(sp.from, n)
  {
    CountPlaces(v, sp.from, n);
    AddedPlaces(s, v, sp, n);
  }

  lemma AddedPlaces(s: Schema, v: nat, sp: Space, n: string)
    requires v !in s
    ensures Places(s[v := sp], n) == Places(s, n) + PlacesOf(v, sp.from, n) && Places(s, n) !! PlacesOf(v, sp.from, n)
  {
  }

  lemma SamePlaces(s: Schema, t: Schema, n: string)
    requires s.Keys == t.Keys && forall v | v in s :: t[v].from == s[v].from
    ensures Places(s, n) == Places(t, n)
  {
  }

  // ---------------------------------------------------------------------------
  // The invariant
  // ---------------------------------------------------------------------------

  ghost predicate CountOK(s: Schema, id: nat)
  {
    id in s ==> s[id].refs == |Places(s, s[id].name)|
  }

  /** Everything that a live view names is live. */
  ghost predicate AllLive(s: Schema, from: seq<Entry>)
  {
    forall k | 0 <= k < |from| && Refers(from[k]) :: Live(s, from[k].name)
  }

  ghost predicate Inv(s: Schema)
  {
    && NamesUnique(s) && (forall id: nat :: CountOK(s, id))
    && (forall v | v in s :: AllLive(s, s[v].from))
  }

  // ---------------------------------------------------------------------------
  // Updating the counters
  // ---------------------------------------------------------------------------

  function Signed(n: int, up: bool): int
  {
    if up then n else -n
  }

  /** The counters after all places have been counted, up or down. */
  ghost function Bumped(s: Schema, from: seq<Entry>, up: bool): Schema
  {
    map id | id in s :: s[id].(refs := s[id].refs + Signed(Occ(from, s[id].name), up))
  }

  lemma BumpedTwice(s: Schema, from: seq<Entry>)
    ensures Bumped(Bumped(s, from, true), from, false) == s && Bumped(Bumped(s, from, false), from, true) == s
  {
  }

  /** Count the space that was found, if one was. */
  function BumpAt(s: Schema, found: Option<nat>, up: bool): Schema
  {
    if found.Some? && found.value in s then s[found.value := s[found.value].(refs := s[found.value].refs + Signed(1, up))] else s
  }

  /** One more place: the space that it names is counted, if there is one. */
  lemma BumpOne(s: Schema, from: seq<Entry>, k: nat, up: bool, found: Option<nat>)
    requires k < |from| && NamesUnique(s)
    requires found.Some? ==> found.value in s && Refers(from[k]) && s[found.value].name == from[k].name
    requires found.None? ==> !Refers(from[k]) || !Live(s, from[k].name)
    ensures Bumped(s, from[..k + 1], up) == BumpAt(Bumped(s, from[..k], up), found, up)
  {
    var b, c := Bumped(s, from[..k], up), Bumped(s, from[..k + 1], up);
    forall id | id in s ensures c[id] == BumpAt(b, found, up)[id] { BumpOneAt(s, from, k, up, found, id); }
    assert BumpAt(b, found, up).Keys == s.Keys;
  }

  /** The walk has counted the first `k` places. */
  ghost predicate IsBumped(s: Schema, t: Schema, from: seq<Entry>, k: nat, up: bool)
  {
    k <= |from| && t == Bumped(s, from[..k], up)
  }

  lemma BumpNext(s: Schema, t: Schema, from: seq<Entry>, k: nat, up: bool, found: Option<nat>)
    requires IsBumped(s, t, from, k, up) && k < |from| && NamesUnique(s)
    requires found.Some? ==> found.value in t && Refers(from[k]) && t[found.value].name == from[k].name
    requires found.None? ==> !Refers(from[k]) || !Live(t, from[k].name)
    ensures IsBumped(s, BumpAt(t, found, up), from, k + 1, up)
    ensures found.Some? ==> found.value in s && s[found.value].name == from[k].name
  {
    if Refers(from[k]) { LiveBumped(s, from[..k], up, from[k].name); }
    BumpOne(s, from, k, up, found);
  }

  lemma BumpOneAt(s: Schema, from: seq<Entry>, k: nat, up: bool, found: Option<nat>, id: nat)
    requires k < |from| && NamesUnique(s) && id in s
    requires found.Some? ==> found.value in s && Refers(from[k]) && s[found.value].name == from[k].name
    requires found.None? ==> !Refers(from[k]) || !Live(s, from[k].name)
    ensures Bumped(s, from[..k + 1], up)[id] == BumpAt(Bumped(s, from[..k], up), found, up)[id]
  {
    OccOne(from, k, s[id].name);
    FoundIsNamed(s, from[k], found, id);
  }

  lemma FoundIsNamed(s: Schema, e: Entry, found: Option<nat>, id: nat)
    requires NamesUnique(s) && id in s
    requires found.Some? ==> found.value in s && Refers(e) && s[found.value].name == e.name
    requires found.None? ==> !Refers(e) || !Live(s, e.name)
    ensures found == Some(id) <==> Refers(e) && e.name == s[id].name
  {
  }

  lemma OccOne(from: seq<Entry>, k: nat, n: string)
    requires k < |from|
    ensures Occ(from[..k + 1], n) == Occ(from[..k], n) + if Refers(from[k]) && from[k].name == n then 1 else 0
  {
    assert from[..k + 1][..k] == from[..k];
  }

  lemma {:induction false} OccGrows(from: seq<Entry>, k: nat, n: nat, name: string)
    requires k <= n <= |from|
    ensures Occ(from[..k], name) <= Occ(from[..n], name)
  {
    if k < n {
      OccGrows(from, k, n - 1, name);
      OccOne(from, n - 1, name);
    }
  }

  /** Place `k` finds the counter that it lowers positive, after all places before it have been lowered. */
  ghost predicate LowersAt(s: Schema, from: seq<Entry>, k: nat)
    requires k < |from|
  {
    Refers(from[k]) ==> forall id | id in s && s[id].name == from[k].name :: s[id].refs > Occ(from[..k], from[k].name)
  }

  /** Every counter that a walk over a FROM clause lowers is positive. */
  ghost predicate Lowers(s: Schema, from: seq<Entry>, suppress: bool)
  {
    forall k: nat | k < |from| && (suppress || AllLive(s, from[..k])) :: LowersAt(s, from, k)
  }

  lemma LowersByOcc(s: Schema, from: seq<Entry>, k: nat, n: nat)
    requires k < n <= |from| && forall id | id in s :: s[id].refs >= Occ(from[..n], s[id].name)
    ensures LowersAt(s, from, k)
  {
    if Refers(from[k]) {
      OccOne(from, k, from[k].name);
      OccGrows(from, k + 1, n, from[k].name);
    }
  }

  /** A space is counted at least as often as one live view names it. */
  lemma ViewIsCounted(s: Schema, v: nat, id: nat)
    requires Inv(s) && v in s && id in s
    ensures s[id].refs >= Occ(s[v].from, s[id].name)
  {
    var n := s[id].name;
    assert CountOK(s, id);
    CountPlaces(v, s[v].from, n);
    SmallerSet(PlacesOf(v, s[v].from, n), Places(s, n));
  }

  /** What a live view has counted can be lowered again, with the view still there or gone. */
  lemma ViewLowers(s: Schema, v: nat, t: Schema)
    requires Inv(s) && v in s && t.Keys <= s.Keys && forall id | id in t :: t[id] == s[id]
    ensures Lowers(t, s[v].from, true)
  {
    var from := s[v].from;
    forall k: nat | k < |from| ensures LowersAt(t, from, k) {
      assert from[..|from|] == from;
      forall id | id in t ensures t[id].refs >= Occ(from[..|from|], t[id].name) { ViewIsCounted(s, v, id); }
      LowersByOcc(t, from, k, |from|);
    }
  }

  ghost predicate LiveOr(s: Schema, from: seq<Entry>, suppress: bool)
  {
    AllLive(s, from) || suppress
  }

  lemma LiveOneMore(s: Schema, from: seq<Entry>, k: nat, suppress: bool, found: Option<nat>)
    requires k < |from| && LiveOr(s, from[..k], suppress) && (found.Some? ==> found.value in s && Refers(from[k]) && s[found.value].name == from[k].name)
    requires Refers(from[k]) ==> found.Some? || suppress
    ensures LiveOr(s, from[..k + 1], suppress)
  {
    if !suppress {
      forall j | 0 <= j < k + 1 && Refers(from[j]) ensures Live(s, from[j].name) {
        if j < k { assert from[..k][j] == from[j]; }
      }
    }
  }

  /** The counter that the walk comes to is positive. */
  lemma LowersNext(s: Schema, from: seq<Entry>, suppress: bool, k: nat, id: nat)
    requires Lowers(s, from, suppress) && k < |from| && LiveOr(s, from[..k], suppress) && id in s && Refers(from[k]) && s[id].name == from[k].name
    ensures Bumped(s, from[..k], false)[id].refs > 0
  {
    assert LowersAt(s, from, k);
  }

  /** The walk has come to place `k`. */
  ghost predicate Walked(s: Schema, t: Schema, from: seq<Entry>, k: nat, up: bool, suppress: bool)
  {
    IsBumped(s, t, from, k, up) && LiveOr(s, from[..k], suppress)
  }

  lemma WalkNext(s: Schema, t: Schema, from: seq<Entry>, k: nat, up: bool, suppress: bool, found: Option<nat>)
    requires Walked(s, t, from, k, up, suppress) && k < |from| && NamesUnique(s) && (!up ==> Lowers(s, from, suppress))
    requires found.Some? ==> found.value in t && Refers(from[k]) && t[found.value].name == from[k].name
    requires found.None? ==> !Refers(from[k]) || (suppress && !Live(t, from[k].name))
    ensures Walked(s, BumpAt(t, found, up), from, k + 1, up, suppress) && (!up && found.Some? ==> t[found.value].refs > 0)
  {
    BumpNext(s, t, from, k, up, found);
    LiveOneMore(s, from, k, suppress, found);
    if !up && found.Some? { LowersNext(s, from, suppress, k, found.value); }
  }

  /** Every space that the FROM clause names is there, or is the one that is created. */
  ghost predicate NamesKnown(s: Schema, name: string, from: seq<Entry>)
  {
    forall k, n | 0 <= k < |from| && from[k] == Named(n, false) && n != name :: Live(s, n)
  }

  lemma CreateAllowed(s: Schema, id: nat, name: string, from: seq<Entry>)
    requires id !in s && !Live(s, name)
    ensures Allowed(s, Create(id, name, from)) <==> NamesKnown(s, name, from)
  {
    var s1 := s[id := Space(name, 0, from)];
    assert Live(s1, name) by { assert s1[id].name == name; }
    forall n | n != name ensures Live(s1, n) <==> Live(s, n) {
      if Live(s, n) {
        var i :| i in s && s[i].name == n;
        assert s1[i].name == n;
      }
    }
    if AllLive(s1, from) {
      forall k, n | 0 <= k < |from| && from[k] == Named(n, false) && n != name ensures Live(s, n) { assert Refers(from[k]); }
    }
    if NamesKnown(s, name, from) {
      forall k | 0 <= k < |from| && Refers(from[k]) ensures Live(s1, from[k].name) { assert from[k] == Named(from[k].name, false); }
    }
  }

  class Counters {
    var spaces: Schema

    /** `space_by_name`. */
    method Find(n: string) returns (id: Option<nat>)
      ensures id.Some? ==> id.value in spaces && spaces[id.value].name == n
      ensures id.None? ==> !Live(spaces, n)
    {
      var ids := spaces.Keys;
      while ids != {}
        invariant ids <= spaces.Keys && forall i | i in spaces && i !in ids :: spaces[i].name != n
        decreases ids
      {
        var i :| i in ids;
        if spaces[i].name == n { return Some(i); }
        ids := ids - {i};
      }
      return None;
    }

    /**
     `update_view_references`: count all places, up or down, up to the first name that is
     missing, or skipping those if errors are suppressed.  A counter that is lowered must be
     positive.
     */
    method Update(from: seq<Entry>, up: bool, suppress: bool) returns (done: nat)
      requires NamesUnique(spaces) && (!up ==> Lowers(spaces, from, suppress))
      modifies this
      ensures done <= |from| && spaces == Bumped(old(spaces), from[..done], up)
      ensures AllLive(old(spaces), from[..done]) || suppress
      ensures done < |from| ==> !suppress && Refers(from[done]) && !Live(old(spaces), from[done].name)
    {
      ghost var s := spaces;
      done := 0;
      assert spaces == Bumped(spaces, from[..0], up);
      while done < |from|
        invariant done <= |from| && Walked(s, spaces, from, done, up, suppress)
      {
        var id := None;
        if Refers(from[done]) {
          id := Find(from[done].name);
          if id.None? && !suppress {
            LiveBumped(s, from[..done], up, from[done].name);
            return;
          }
        }
        WalkNext(s, spaces, from, done, up, suppress, id);
        assert !up && id.Some? ==> spaces[id.value].refs > 0;
        spaces := BumpAt(spaces, id, up);
        done := done + 1;
      }
    }

    /**
     Create a space; a view counts what it names.  If a name is missing, the counters that
     have been raised are lowered again, and the space is taken back.
     */
    method CreateSpace(id: nat, name: string, from: seq<Entry>) returns (ok: bool)
      requires Inv(spaces) && id !in spaces && !Live(spaces, name)
      modifies this
      ensures ok <==> Allowed(old(spaces), Create(id, name, from))
      ensures ok <==> NamesKnown(old(spaces), name, from)
      ensures spaces == if ok then Apply(old(spaces), Create(id, name, from)) else old(spaces)
      ensures ok ==> HasEffect(old(spaces), spaces, Create(id, name, from))
    {
      ghost var s0 := spaces;
      CreateAllowed(s0, id, name, from);
      spaces := spaces[id := Space(name, 0, from)];
      ghost var s1 := spaces;
      assert NamesUnique(s1);
      var done := Update(from, true, false);
      if done < |from| {
        forall i | i in s1 ensures s1[i].refs >= 0 { assert CountOK(s0, i); }
        LowerAgain(from, done, s1);
        spaces := spaces - {id};
        assert spaces == s0;
        return false;
      }
      assert from[..done] == from;
      ApplyEffect(s0, Create(id, name, from));
      return true;
    }

    /** Lower the counters that have been raised: the walk stops at the same place. */
    method LowerAgain(from: seq<Entry>, ghost done: nat, ghost s: Schema)
      requires NamesUnique(s) && done < |from| && AllLive(s, from[..done]) && Refers(from[done]) && !Live(s, from[done].name)
      requires spaces == Bumped(s, from[..done], true) && forall i | i in s :: s[i].refs >= 0
      modifies this
      ensures spaces == s
    {
      RaisedLowers(s, from, done);
      BumpedShape(s, from[..done], true);
      var again := Update(from, false, false);
      SamePrefix(s, from, done, again);
      BumpedTwice(s, from[..done]);
    }

    /** Drop a space that no view names; a view gives up what it counts. */
    method DropSpace(id: nat) returns (ok: bool)
      requires Inv(spaces) && id in spaces
      modifies this
      ensures ok <==> Allowed(old(spaces), Drop(id))
      ensures ok <==> Places(old(spaces), old(spaces)[id].name) == {}
      ensures spaces == if ok then Apply(old(spaces), Drop(id)) else old(spaces)
      ensures ok ==> HasEffect(old(spaces), spaces, Drop(id))
      ensures Lowers(old(spaces) - {id}, old(spaces)[id].from, true)
    {
      ViewLowers(spaces, id, spaces - {id});
      assert CountOK(spaces, id);
      if spaces[id].refs > 0 { return false; }
      var sp := spaces[id];
      spaces := spaces - {id};
      var done := Update(sp.from, false, true);
      assert sp.from[..done] == sp.from;
      ApplyEffect(old(spaces), Drop(id));
      return true;
    }

    /** Rename a space that no view names. */
    method RenameSpace(id: nat, name: string) returns (ok: bool)
      requires Inv(spaces) && id in spaces && spaces[id].from == [] && (name == spaces[id].name || !Live(spaces, name))
      modifies this
      ensures ok <==> Allowed(old(spaces), Rename(id, name))
      ensures ok <==> name == old(spaces)[id].name || Places(old(spaces), old(spaces)[id].name) == {}
      ensures spaces == if ok then Apply(old(spaces), Rename(id, name)) else old(spaces)
      ensures ok ==> HasEffect(old(spaces), spaces, Rename(id, name))
    {
      assert CountOK(spaces, id);
      if name != spaces[id].name && spaces[id].refs > 0 { return false; }
      spaces := spaces[id := spaces[id].(name := name)];
      ApplyEffect(old(spaces), Rename(id, name));
      return true;
    }

    /** The rollback triggers; that of a new view lowers what the view has counted. */
    method Rollback(op: Op, sp: Space)
      requires NamesUnique(spaces) && CanUndo(spaces, Record(op, sp))
      modifies this
      ensures spaces == Undo(old(spaces), op, sp)
    {
      match op {
        case Create(id, name, from) =>
          var done := Update(from, false, true);
          assert from[..done] == from;
          spaces := spaces - {id};
        case Drop(id) =>
          var done := Update(sp.from, true, true);
          assert sp.from[..done] == sp.from;
          spaces := spaces[id := sp];
        case Rename(id, name) =>
          spaces := spaces[id := spaces[id].(name := sp.name)];
      }
    }
  }

  /** What has just been raised, up to a missing name, can be lowered up to there. */
  lemma RaisedLowers(s: Schema, from: seq<Entry>, done: nat)
    requires done < |from| && Refers(from[done]) && !Live(s, from[done].name) && forall i | i in s :: s[i].refs >= 0
    ensures Lowers(Bumped(s, from[..done], true), from, false)
  {
    var t := Bumped(s, from[..done], true);
    LiveBumped(s, from[..done], true, from[done].name);
    forall k: nat | k < |from| && AllLive(t, from[..k]) ensures LowersAt(t, from, k) {
      if k < done { LowersByOcc(t, from, k, done); }
    }
  }

  /** Both passes stop at the same missing name. */
  lemma SamePrefix(s: Schema, from: seq<Entry>, done: nat, again: nat)
    requires done < |from| && again <= |from|
    requires AllLive(s, from[..done]) && Refers(from[done]) && !Live(s, from[done].name)
    requires AllLive(Bumped(s, from[..done], true), from[..again])
    requires again < |from| ==> Refers(from[again]) && !Live(Bumped(s, from[..done], true), from[again].name)
    ensures again == done
  {
    LiveBumped(s, from[..done], true, from[done].name);
    if again < |from| { LiveBumped(s, from[..done], true, from[again].name); }
    PrefixLive(s, from, done);
    PrefixLive(Bumped(s, from[..done], true), from, again);
  }

  lemma PrefixLive(s: Schema, from: seq<Entry>, n: nat)
    requires n <= |from| && AllLive(s, from[..n])
    ensures forall k | 0 <= k < n && Refers(from[k]) :: Live(s, from[k].name)
  {
    forall k | 0 <= k < n ensures from[..n][k] == from[k] { }
  }

  lemma LiveBumped(s: Schema, from: seq<Entry>, up: bool, n: string)
    ensures Live(Bumped(s, from, up), n) <==> Live(s, n)
  {
    if Live(s, n) {
      var id :| id in s && s[id].name == n;
      assert Bumped(s, from, up)[id].name == n;
    }
  }

  // ---------------------------------------------------------------------------
  // Changes and rollbacks
  // ---------------------------------------------------------------------------

  datatype Op =
    | Create(id: nat, name: string, from: seq<Entry>)
    | Drop(id: nat)
    | Rename(id: nat, name: string)

  ghost predicate Allowed(s: Schema, op: Op)
  {
    match op
    case Create(id, name, from) => id !in s && !Live(s, name) && AllLive(s[id := Space(name, 0, from)], from)
    case Drop(id) => id in s && s[id].refs == 0
    case Rename(id, name) => id in s && s[id].from == [] && (name == s[id].name || (s[id].refs == 0 && !Live(s, name)))
  }

  ghost function Apply(s: Schema, op: Op): Schema
    requires Allowed(s, op)
  {
    match op
    case Create(id, name, from) => Bumped(s[id := Space(name, 0, from)], from, true)
    case Drop(id) => Bumped(s - {id}, s[id].from, false)
    case Rename(id, name) => s[id := s[id].(name := name)]
  }

  /** The name and the FROM clause of a space. */
  function ShapeOf(s: Schema, id: nat): Option<(string, seq<Entry>)>
  {
    if id in s then Some((s[id].name, s[id].from)) else None
  }

  /** The change has made, dropped or renamed its space, and every counter is right again. */
  ghost predicate HasEffect(s: Schema, t: Schema, op: Op)
  {
    && Inv(t)
    && forall id: nat :: ShapeOf(t, id) ==
         if id != op.id then ShapeOf(s, id)
         else match op
              case Create(_, name, from) => Some((name, from))
              case Drop(_) => None
              case Rename(_, name) => if id in s then Some((name, s[id].from)) else None
  }

  /** Every allowed change does what it says. */
  lemma ApplyEffect(s: Schema, op: Op)
    requires Inv(s) && Allowed(s, op)
    ensures HasEffect(s, Apply(s, op), op)
  {
    ApplyKeeps(s, op);
    match op
    case Create(id, name, from) => BumpedShape(s[id := Space(name, 0, from)], from, true);
    case Drop(id) => BumpedShape(s - {id}, s[id].from, false);
    case Rename(id, name) =>
  }

  /** The rollback of a change; `sp` is the space as it was before, if there was one. */
  ghost function Undo(s: Schema, op: Op, sp: Space): Schema
    requires !op.Drop? ==> op.id in s
  {
    match op
    case Create(id, name, from) => Bumped(s, from, false) - {id}
    case Drop(id) => Bumped(s, sp.from, true)[id := sp]
    case Rename(id, name) => s[id := s[id].(name := sp.name)]
  }

  /** A name that is not live is named nowhere. */
  lemma UnnamedPlaces(s: Schema, n: string)
    requires Inv(s) && !Live(s, n)
    ensures Places(s, n) == {}
  {
    forall v, k | v in s && 0 <= k < |s[v].from| && Refers(s[v].from[k]) ensures s[v].from[k].name != n {
      assert AllLive(s, s[v].from);
    }
  }

  lemma NoOcc(s: Schema, v: nat, n: string)
    requires v in s && Places(s, n) == {}
    ensures forall k | 0 <= k < |s[v].from| && Refers(s[v].from[k]) :: s[v].from[k].name != n
    ensures Occ(s[v].from, n) == 0
  {
    forall k | 0 <= k < |s[v].from| && Refers(s[v].from[k]) ensures s[v].from[k].name != n {
      assert s[v].from[k].name == n ==> (v, k) in Places(s, n);
    }
    CountPlaces(v, s[v].from, n);
    assert PlacesOf(v, s[v].from, n) == {};
  }

  lemma EmptyCount(s: Schema, id: nat)
    requires Inv(s) && id in s && s[id].refs == 0
    ensures Places(s, s[id].name) == {}
  {
    assert CountOK(s, id);
  }

  lemma BumpedShape(s: Schema, from: seq<Entry>, up: bool)
    ensures Bumped(s, from, up).Keys == s.Keys
    ensures forall id | id in s :: Bumped(s, from, up)[id].name == s[id].name && Bumped(s, from, up)[id].from == s[id].from
    ensures NamesUnique(s) ==> NamesUnique(Bumped(s, from, up))
    ensures forall g: seq<Entry> | AllLive(s, g) :: AllLive(Bumped(s, from, up), g)
  {
    forall g: seq<Entry> | AllLive(s, g) ensures AllLive(Bumped(s, from, up), g) {
      forall k | 0 <= k < |g| && Refers(g[k]) ensures Live(Bumped(s, from, up), g[k].name) { LiveBumped(s, from, up, g[k].name); }
    }
  }

  lemma MoreLive(s: Schema, t: Schema, g: seq<Entry>)
    requires AllLive(s, g) && forall n | Live(s, n) :: Live(t, n)
    ensures AllLive(t, g)
  {
  }

  lemma CreateKeeps(s: Schema, op: Op)
    requires Inv(s) && op.Create? && Allowed(s, op)
    ensures Inv(Apply(s, op))
  {
    var sp := Space(op.name, 0, op.from);
    var s1, t := s[op.id := sp], Apply(s, op);
    BumpedShape(s1, op.from, true);
    forall n | Live(s, n) ensures Live(s1, n) {
      var i :| i in s && s[i].name == n;
      assert s1[i].name == n;
    }
    forall id: nat | id in t ensures CountOK(t, id) {
      var n := t[id].name;
      SamePlaces(s1, t, n);
      PlacesAdded(s, op.id, sp, n);
      if id == op.id { UnnamedPlaces(s, n); } else { assert CountOK(s, id); }
    }
    forall v | v in t ensures AllLive(t, t[v].from) {
      if v != op.id { MoreLive(s, s1, s[v].from); }
      assert AllLive(s1, s1[v].from);
    }
  }

  lemma DropKeeps(s: Schema, op: Op)
    requires Inv(s) && op.Drop? && Allowed(s, op)
    ensures Inv(Apply(s, op))
  {
    var sp := s[op.id];
    var s1, t := s - {op.id}, Apply(s, op);
    BumpedShape(s1, sp.from, false);
    EmptyCount(s, op.id);
    assert s1[op.id := sp] == s;
    forall id: nat | id in t ensures CountOK(t, id) {
      var n := t[id].name;
      SamePlaces(s1, t, n);
      PlacesAdded(s1, op.id, sp, n);
      assert CountOK(s, id);
    }
    forall v | v in t ensures AllLive(t, t[v].from) {
      NoOcc(s, v, sp.name);
      StillLive(s, op.id, v);
      assert AllLive(s1, s1[v].from);
    }
  }

  /** What a view names is live without a space that it does not name. */
  lemma StillLive(s: Schema, id: nat, v: nat)
    requires Inv(s) && id in s && v in s && v != id
    requires forall k | 0 <= k < |s[v].from| && Refers(s[v].from[k]) :: s[v].from[k].name != s[id].name
    ensures AllLive(s - {id}, s[v].from)
  {
    forall k | 0 <= k < |s[v].from| && Refers(s[v].from[k]) ensures Live(s - {id}, s[v].from[k].name) {
      assert AllLive(s, s[v].from);
      var i :| i in s && s[i].name == s[v].from[k].name;
      assert i in s - {id};
    }
  }

  lemma RenameKeeps(s: Schema, op: Op)
    requires Inv(s) && op.Rename? && Allowed(s, op) && op.name != s[op.id].name
    ensures Inv(Apply(s, op))
  {
    var t := Apply(s, op);
    EmptyCount(s, op.id);
    UnnamedPlaces(s, op.name);
    forall id: nat | id in t ensures CountOK(t, id) {
      SamePlaces(s, t, t[id].name);
      assert CountOK(s, id);
    }
    forall v | v in t ensures AllLive(t, t[v].from) {
      NoOcc(s, v, s[op.id].name);
      forall k | 0 <= k < |s[v].from| && Refers(s[v].from[k]) ensures Live(t, s[v].from[k].name) {
        assert AllLive(s, s[v].from);
        var i :| i in s && s[i].name == s[v].from[k].name;
        assert i in t && t[i].name == s[v].from[k].name;
      }
    }
  }

  /** Every allowed change keeps the counters right. */
  lemma ApplyKeeps(s: Schema, op: Op)
    requires Inv(s) && Allowed(s, op)
    ensures Inv(Apply(s, op))
  {
    match op {
      case Create(id, name, from) => CreateKeeps(s, op);
      case Drop(id) => DropKeeps(s, op);
      case Rename(id, name) => if name != s[id].name { RenameKeeps(s, op); } else { assert Apply(s, op) == s; }
    }
  }

  /** A rollback restores the schema, counters included. */
  lemma UndoRestores(s: Schema, op: Op, sp: Space)
    requires Inv(s) && Allowed(s, op) && (!op.Create? ==> sp == s[op.id])
    ensures CanUndo(Apply(s, op), Record(op, sp)) && Undo(Apply(s, op), op, sp) == s
  {
    match op {
      case Create(id, name, from) =>
        CreateKeeps(s, op);
        ViewLowers(Apply(s, op), id, Apply(s, op));
        BumpedTwice(s[id := Space(name, 0, from)], from);
        assert s[id := Space(name, 0, from)] - {id} == s;
      case Drop(id) =>
        BumpedTwice(s - {id}, sp.from);
        assert (s - {id})[id := sp] == s;
      case Rename(id, name) =>
    }
  }

  // ---------------------------------------------------------------------------
  // Runs
  // ---------------------------------------------------------------------------

  /** A change that is not committed yet, with the space before it. */
  datatype Record = Record(op: Op, sp: Space)

  datatype Config = Config(s: Schema, pending: seq<Record>)

  datatype Event = Change(r: Record) | RollbackLast | CommitFirst

  ghost predicate Next(c: Config, d: Config, e: Event)
  {
    match e
    case Change(r) =>
      && Allowed(c.s, r.op) && (!r.op.Create? ==> r.sp == c.s[r.op.id])
      && d == Config(Apply(c.s, r.op), c.pending + [r])
    case RollbackLast =>
      && c.pending != [] && CanUndo(c.s, c.pending[|c.pending| - 1])
      && d == Config(Undo(c.s, c.pending[|c.pending| - 1].op, c.pending[|c.pending| - 1].sp), c.pending[..|c.pending| - 1])
    case CommitFirst => c.pending != [] && d == Config(c.s, c.pending[1..])
  }

  /** The rollback finds its space, and every counter that it lowers is positive. */
  ghost predicate CanUndo(s: Schema, r: Record)
  {
    (!r.op.Drop? ==> r.op.id in s) && (r.op.Create? ==> Lowers(s, r.op.from, true))
  }

  /** The schemas before the pending changes. */
  ghost predicate Chain(before: seq<Schema>, c: Config)
  {
    |before| == |c.pending| && forall k: nat | k < |before| :: ChainLink(before, c, k)
  }

  ghost predicate ChainLink(before: seq<Schema>, c: Config, k: nat)
    requires |before| == |c.pending|
  {
    && k < |before| && Inv(before[k]) && Allowed(before[k], c.pending[k].op)
    && (!c.pending[k].op.Create? ==> c.pending[k].sp == before[k][c.pending[k].op.id])
    && (if k + 1 < |before| then before[k + 1] else c.s) == Apply(before[k], c.pending[k].op)
  }

  ghost predicate IsRun(run: seq<Config>, events: seq<Event>)
  {
    && |run| == |events| + 1 && Inv(run[0].s) && run[0].pending == []
    && forall k: nat | k < |events| :: Next(run[k], run[k + 1], events[k])
  }

  lemma StepChain(c: Config, d: Config, e: Event, before: seq<Schema>) returns (before': seq<Schema>)
    requires Chain(before, c) && Inv(c.s) && Next(c, d, e)
    ensures Inv(d.s) && Chain(before', d)
  {
    var n := |before| - 1;
    match e {
      case Change(r) =>
        ApplyKeeps(c.s, r.op);
        before' := before + [c.s];
        forall k: nat | k < |before'| ensures ChainLink(before', d, k) { if k < |before| { assert ChainLink(before, c, k); } }
      case RollbackLast =>
        assert ChainLink(before, c, n);
        UndoRestores(before[n], c.pending[n].op, c.pending[n].sp);
        before' := before[..n];
        forall k: nat | k < n ensures ChainLink(before', d, k) { assert ChainLink(before, c, k); }
      case CommitFirst =>
        before' := before[1..];
        forall k: nat | k < n ensures ChainLink(before', d, k) { assert ChainLink(before, c, k + 1); }
    }
  }

  lemma {:induction false} RunChain(run: seq<Config>, events: seq<Event>, k: nat) returns (before: seq<Schema>)
    requires IsRun(run, events) && k < |run|
    ensures Inv(run[k].s) && Chain(before, run[k])
  {
    if k == 0 {
      before := [];
    } else {
      before := RunChain(run, events, k - 1);
      assert Next(run[k - 1], run[k], events[k - 1]);
      before := StepChain(run[k - 1], run[k], events[k - 1], before);
    }
  }

  /**
   Through every run of creating, dropping and renaming spaces and views, with commits and
   last-first rollbacks, the counter of each space is the number of places in live views
   that name it, what views name is live, and the last change can be rolled back.
   */
  lemma CountersThroughRuns(run: seq<Config>, events: seq<Event>, k: nat, id: nat)
    requires IsRun(run, events) && k < |run| && id in run[k].s
    ensures run[k].s[id].refs == |Places(run[k].s, run[k].s[id].name)|
    ensures AllLive(run[k].s, run[k].s[id].from) && NamesUnique(run[k].s)
    ensures run[k].pending != [] ==> CanUndo(run[k].s, run[k].pending[|run[k].pending| - 1])
  {
    var before := RunChain(run, events, k);
    assert CountOK(run[k].s, id);
    if run[k].pending != [] {
      var n := |before| - 1;
      assert ChainLink(before, run[k], n);
      UndoRestores(before[n], run[k].pending[n].op, run[k].pending[n].sp);
    }
  }
}
