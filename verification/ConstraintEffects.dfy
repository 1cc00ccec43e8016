/**
 What each change of a schema does, entry by entry: which indexes, foreign keys, checks
 and names every space has afterwards.
 */
module ConstraintEffects {
  import opened Options
  import opened Constraints

  /** The index `j` of space `id`. */
  function IndexAt(s: Schema, id: nat, j: nat): Option<Index>
  {
    if id in s && j in s[id].index then Some(s[id].index[j]) else None
  }

  /** A foreign key is made by the change, or replaces another one. */
  predicate Adds(op: Op, fk: Fk)
  {
    (op.CreateFk? || op.ReplaceFk?) && op.fk == fk
  }

  /** A foreign key goes with the change, unless it comes back. */
  predicate Removes(r: Record, fk: Fk)
  {
    (r.op.DropFk? && r.op.fk == fk) || (r.op.ReplaceFk? && r.replaced == fk && r.op.fk != fk)
  }

  /** A name is taken in a space. */
  predicate Takes(op: Op, id: nat, n: string)
  {
    match op
    case CreateFk(fk) => id == fk.child && n == fk.name
    case CreateCk(id', name) => id == id' && n == name
    case ChangeIndex(id', _, x) => id == id' && x.Some? && x.value.unique && n == x.value.name
    case _ => false
  }

  /** A name is given back, unless it is taken again. */
  predicate Frees(r: Record, id: nat, n: string)
  {
    match r.op
    case DropFk(fk) => id == fk.child && n == fk.name
    case DropCk(id', name) => id == id' && n == name
    case ChangeIndex(id', _, _) => id == id' && r.oldIndex.Some? && r.oldIndex.value.unique && n == r.oldIndex.value.name
    case _ => false
  }

  ghost predicate SpacesAfter(s: Schema, t: Schema, op: Op)
  {
    t.Keys == match op
              case CreateSpace(id) => s.Keys + {id}
              case DropSpace(id) => s.Keys - {id}
              case _ => s.Keys
  }

  /** The lists of space `id`, which is there before and after. */
  ghost predicate ListsAfter(s: Schema, t: Schema, r: Record, id: nat)
    requires id in s && id in t
  {
    && (forall fk :: fk in t[id].childFk <==> (fk in s[id].childFk && !Removes(r, fk)) || (Adds(r.op, fk) && id == fk.child))
    && (forall fk :: fk in t[id].parentFk <==> (fk in s[id].parentFk && !Removes(r, fk)) || (Adds(r.op, fk) && id == fk.parent))
    && (forall n :: n in t[id].checks <==> (n in s[id].checks && r.op != DropCk(id, n)) || r.op == CreateCk(id, n))
  }

  ghost predicate NamesAfter(s: Schema, t: Schema, r: Record, id: nat)
    requires id in s && id in t
  {
    forall n :: n in t[id].ids <==> (n in s[id].ids && !Frees(r, id, n)) || Takes(r.op, id, n)
  }

  ghost predicate IndexesAfter(s: Schema, t: Schema, op: Op, id: nat)
  {
    forall j: nat :: IndexAt(t, id, j) == if op.ChangeIndex? && op.id == id && op.iid == j then op.x else IndexAt(s, id, j)
  }

  /** The whole effect of a change. */
  ghost predicate HasEffect(s: Schema, t: Schema, r: Record)
  {
    && SpacesAfter(s, t, r.op)
    && (forall id | id in s && id in t :: ListsAfter(s, t, r, id) && NamesAfter(s, t, r, id) && IndexesAfter(s, t, r.op, id))
    && (r.op.CreateSpace? ==> r.op.id in t && t[r.op.id] == Blank())
  }

  // ---------------------------------------------------------------------------
  // Every change has its effect
  // ---------------------------------------------------------------------------

  lemma IndexEffect(s: Schema, t: Schema, r: Record, id: nat)
    requires Inv(s) && IsRecord(s, r) && t == Apply(s, r.op, r.replaced) && r.op.ChangeIndex? && id in s && id in t
    ensures ListsAfter(s, t, r, id) && NamesAfter(s, t, r, id) && IndexesAfter(s, t, r.op, id)
  {
    assert SpaceOK(s, id);
    if r.op.id == id && r.oldIndex.Some? && r.oldIndex.value.unique {
      assert UniqueName(s[id], r.oldIndex.value.name);
    }
  }

  lemma CreateFkEffect(s: Schema, t: Schema, r: Record, id: nat)
    requires Inv(s) && IsRecord(s, r) && t == Apply(s, r.op, r.replaced) && r.op.CreateFk? && id in s && id in t
    ensures ListsAfter(s, t, r, id) && NamesAfter(s, t, r, id) && IndexesAfter(s, t, r.op, id)
  {
  }

  lemma DropFkEffect(s: Schema, t: Schema, r: Record, id: nat)
    requires Inv(s) && IsRecord(s, r) && t == Apply(s, r.op, r.replaced) && r.op.DropFk? && id in s && id in t
    ensures ListsAfter(s, t, r, id) && NamesAfter(s, t, r, id) && IndexesAfter(s, t, r.op, id)
  {
    assert SpaceOK(s, r.op.fk.child) && SpaceOK(s, id);
  }

  lemma ReplaceFkEffect(s: Schema, t: Schema, r: Record, id: nat)
    requires Inv(s) && IsRecord(s, r) && t == Apply(s, r.op, r.replaced) && r.op.ReplaceFk? && id in s && id in t
    ensures ListsAfter(s, t, r, id) && NamesAfter(s, t, r, id) && IndexesAfter(s, t, r.op, id)
  {
    assert SpaceOK(s, r.op.fk.child) && SpaceOK(s, id) && FkOK(s, r.replaced);
    var u := AddFk(RemoveFk(s, r.replaced), r.op.fk);
    ExchangedLists(s, r.replaced, r.op.fk, id);
    assert t[id] == u[id].(mask := t[id].mask);
    ReplacedLists(s, t, r, id);
  }

  lemma ReplacedLists(s: Schema, t: Schema, r: Record, id: nat)
    requires r.op.ReplaceFk? && id in s && id in t && (forall fk | fk in s[id].childFk :: fk.child == id) && (forall fk | fk in s[id].parentFk :: fk.parent == id)
    requires t[id].childFk == s[id].childFk - (if id == r.replaced.child then {r.replaced} else {}) + (if id == r.op.fk.child then {r.op.fk} else {})
    requires t[id].parentFk == s[id].parentFk - (if id == r.replaced.parent then {r.replaced} else {}) + (if id == r.op.fk.parent then {r.op.fk} else {})
    requires t[id].ids == s[id].ids && t[id].checks == s[id].checks && t[id].index == s[id].index
    ensures ListsAfter(s, t, r, id) && NamesAfter(s, t, r, id) && IndexesAfter(s, t, r.op, id)
  {
  }

  /** One foreign key takes the place of another in the lists. */
  lemma ExchangedLists(s: Schema, out_: Fk, in_: Fk, id: nat)
    requires id in s && out_.child in s && out_.parent in s && in_.child in s && in_.parent in s
    ensures var u := AddFk(RemoveFk(s, out_), in_);
            && id in u && u[id].ids == s[id].ids && u[id].checks == s[id].checks && u[id].index == s[id].index
            && u[id].childFk == s[id].childFk - (if id == out_.child then {out_} else {}) + (if id == in_.child then {in_} else {})
            && u[id].parentFk == s[id].parentFk - (if id == out_.parent then {out_} else {}) + (if id == in_.parent then {in_} else {})
  {
    var s1 := RemoveFk(s, out_);
    assert s1[id].childFk == s[id].childFk - (if id == out_.child then {out_} else {});
    assert s1[id].parentFk == s[id].parentFk - (if id == out_.parent then {out_} else {});
  }

  lemma CheckEffect(s: Schema, t: Schema, r: Record, id: nat)
    requires Inv(s) && IsRecord(s, r) && t == Apply(s, r.op, r.replaced) && (r.op.CreateCk? || r.op.DropCk?) && id in s && id in t
    ensures ListsAfter(s, t, r, id) && NamesAfter(s, t, r, id) && IndexesAfter(s, t, r.op, id)
  {
  }

  /** Every allowed change does what it says, and nothing else. */
  lemma ApplyEffect(s: Schema, r: Record)
    requires Inv(s) && IsRecord(s, r)
    ensures HasEffect(s, Apply(s, r.op, r.replaced), r)
  {
    var t := Apply(s, r.op, r.replaced);
    forall id | id in s && id in t ensures ListsAfter(s, t, r, id) && NamesAfter(s, t, r, id) && IndexesAfter(s, t, r.op, id) {
      match r.op {
        case CreateSpace(_) =>
        case DropSpace(_) =>
        case ChangeIndex(_, _, _) => IndexEffect(s, t, r, id);
        case CreateFk(_) => CreateFkEffect(s, t, r, id);
        case ReplaceFk(_) => ReplaceFkEffect(s, t, r, id);
        case DropFk(_) => DropFkEffect(s, t, r, id);
        case CreateCk(_, _) => CheckEffect(s, t, r, id);
        case DropCk(_, _) => CheckEffect(s, t, r, id);
      }
    }
    KeysAfter(s, r);
  }

  lemma KeysAfter(s: Schema, r: Record)
    requires Inv(s) && IsRecord(s, r)
    ensures SpacesAfter(s, Apply(s, r.op, r.replaced), r.op)
  {
    var t := Apply(s, r.op, r.replaced);
    if r.op.ReplaceFk? { assert SpaceOK(s, r.op.fk.child) && FkOK(s, r.replaced); }
    if r.op.DropFk? { assert SpaceOK(s, r.op.fk.child) && FkOK(s, r.op.fk); }
    assert forall id :: id in t <==> match r.op case CreateSpace(x) => id in s || id == x case DropSpace(x) => id in s && id != x case _ => id in s;
  }

  /** After a foreign key is dropped, nothing lists it, its name is free, and every other foreign key and name stays. */
  lemma DroppedFkIsGone(s: Schema, t: Schema, r: Record, id: nat)
    requires Inv(s) && IsRecord(s, r) && r.op.DropFk? && HasEffect(s, t, r) && id in s
    ensures id in t && t[id].childFk == s[id].childFk - {r.op.fk} && t[id].parentFk == s[id].parentFk - {r.op.fk} && r.op.fk.name !in t[r.op.fk.child].ids
    ensures t[id].ids == if id == r.op.fk.child then s[id].ids - {r.op.fk.name} else s[id].ids
  {
    assert ListsAfter(s, t, r, id) && NamesAfter(s, t, r, id) && ListsAfter(s, t, r, r.op.fk.child) && NamesAfter(s, t, r, r.op.fk.child);
  }
}
