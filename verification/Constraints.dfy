/**
 Constraints of a schema: unique indexes, foreign keys and checks, the names they take
 in their space, and the foreign key masks.  Each change leaves a record with which it
 can be rolled back; records are rolled back last-first.
 */
module Constraints {
  import opened Options
  import opened ColumnMask

  datatype Link = Link(childField: nat, parentField: nat)

  /** A foreign key; `index` is the index of the parent that it refers to. */
  datatype Fk = Fk(name: string, child: nat, parent: nat, links: seq<Link>, index: nat)

  datatype Index = Index(name: string, unique: bool)

  datatype Space = Space(index: map<nat, Index>, childFk: set<Fk>, parentFk: set<Fk>, checks: set<string>, ids: set<string>, mask: Mask)

  type Schema = map<nat, Space>

  // ---------------------------------------------------------------------------
  // Linked fields
  // ---------------------------------------------------------------------------

  ghost predicate ChildField(fk: Fk, f: nat)
  {
    exists i :: 0 <= i < |fk.links| && fk.links[i].childField == f
  }

  ghost predicate ParentField(fk: Fk, f: nat)
  {
    exists i :: 0 <= i < |fk.links| && fk.links[i].parentField == f
  }

  ghost predicate IsLinked(sp: Space, f: nat)
  {
    (exists fk :: fk in sp.childFk && ChildField(fk, f)) || (exists fk :: fk in sp.parentFk && ParentField(fk, f))
  }

  /** The fields that foreign keys link, on either side. */
  ghost function Linked(sp: Space): iset<nat>
  {
    iset f | IsLinked(sp, f)
  }

  ghost function ChildFields(fk: Fk): iset<nat>
  {
    iset f | ChildField(fk, f)
  }

  ghost function ParentFields(fk: Fk): iset<nat>
  {
    iset f | ParentField(fk, f)
  }

  /** The mask of a set of fields. */
  ghost function MaskOf(fields: iset<nat>): (m: Mask)
    ensures Exact(m, fields)
  {
    seq(BITS, b requires b >= 0 => HasBit(fields, b))
  }

  lemma MaskIsUnique(a: Mask, b: Mask, fields: iset<nat>)
    requires Exact(a, fields) && Exact(b, fields)
    ensures a == b
  {
  }

  /** A mask that covers more covers less, and stays covering when bits are added. */
  lemma CoversMore(mask: Mask, fields: iset<nat>, more: iset<nat>)
    requires Covers(mask, fields)
    ensures Covers(Or(mask, MaskOf(more)), fields + more)
  {
    ExactCovers(MaskOf(more), more);
  }

  // ---------------------------------------------------------------------------
  // The invariants
  // ---------------------------------------------------------------------------

  ghost predicate UniqueName(sp: Space, n: string)
  {
    exists i :: i in sp.index && sp.index[i] == Index(n, true)
  }

  ghost predicate FkName(sp: Space, n: string)
  {
    exists fk :: fk in sp.childFk && fk.name == n
  }

  /**
   The names taken in a space are those of its unique indexes, of the foreign keys of
   which it is the child, and of its checks; and no two of these have the same name.
   */
  ghost predicate NamesOK(sp: Space)
  {
    && (forall n :: n in sp.ids <==> UniqueName(sp, n) || FkName(sp, n) || n in sp.checks)
    && (forall n | UniqueName(sp, n) :: !FkName(sp, n) && n !in sp.checks)
    && (forall n | FkName(sp, n) :: n !in sp.checks)
    && (forall i, j | i in sp.index && j in sp.index && i != j && sp.index[i].unique && sp.index[j].unique :: sp.index[i].name != sp.index[j].name)
    && (forall a, b | a in sp.childFk && b in sp.childFk && a.name == b.name :: a == b)
  }

  /** Foreign keys are listed with both spaces, and refer to an index that is there. */
  ghost predicate FkOK(s: Schema, fk: Fk)
  {
    && fk.child in s && fk.parent in s
    && fk in s[fk.child].childFk && fk in s[fk.parent].parentFk && fk.index in s[fk.parent].index
  }

  ghost predicate ListsOK(s: Schema, id: nat)
    requires id in s
  {
    && (forall fk | fk in s[id].childFk :: fk.child == id && FkOK(s, fk))
    && (forall fk | fk in s[id].parentFk :: fk.parent == id && FkOK(s, fk))
  }

  /** Names and lists are in order; this does not depend on the masks. */
  ghost predicate Sound(s: Schema)
  {
    forall id: nat :: SpaceOK(s, id)
  }

  ghost predicate SpaceOK(s: Schema, id: nat)
  {
    id in s ==> NamesOK(s[id]) && ListsOK(s, id)
  }

  ghost predicate ListsAt(s: Schema, id: nat)
  {
    id in s ==> ListsOK(s, id)
  }

  ghost predicate AllLists(s: Schema)
  {
    forall id: nat :: ListsAt(s, id)
  }

  lemma SoundLists(s: Schema)
    requires Sound(s)
    ensures AllLists(s)
  {
    forall id: nat ensures ListsAt(s, id) { assert SpaceOK(s, id); }
  }

  /** Every mask covers the linked fields. */
  ghost predicate MasksCover(s: Schema)
  {
    forall id | id in s :: Covers(s[id].mask, Linked(s[id]))
  }

  ghost predicate Inv(s: Schema)
  {
    Sound(s) && MasksCover(s)
  }

  /** All masks are exact. */
  ghost predicate MasksExact(s: Schema)
  {
    forall id | id in s :: Exact(s[id].mask, Linked(s[id]))
  }

  // ---------------------------------------------------------------------------
  // Changes
  // ---------------------------------------------------------------------------

  function AddFk(s: Schema, fk: Fk): Schema
    requires fk.child in s && fk.parent in s
  {
    var s1 := s[fk.child := s[fk.child].(childFk := s[fk.child].childFk + {fk})];
    s1[fk.parent := s1[fk.parent].(parentFk := s1[fk.parent].parentFk + {fk})]
  }

  function RemoveFk(s: Schema, fk: Fk): Schema
    requires fk.child in s && fk.parent in s
  {
    var s1 := s[fk.child := s[fk.child].(childFk := s[fk.child].childFk - {fk})];
    s1[fk.parent := s1[fk.parent].(parentFk := s1[fk.parent].parentFk - {fk})]
  }

  function TakeName(s: Schema, id: nat, n: string): Schema
    requires id in s
  {
    s[id := s[id].(ids := s[id].ids + {n})]
  }

  function FreeName(s: Schema, id: nat, n: string): Schema
    requires id in s
  {
    s[id := s[id].(ids := s[id].ids - {n})]
  }

  /** Add the bits of a foreign key to the masks of both spaces. */
  ghost function SetMasks(s: Schema, fk: Fk): Schema
    requires fk.child in s && fk.parent in s
  {
    AddBits(AddBits(s, fk.parent, ParentFields(fk)), fk.child, ChildFields(fk))
  }

  ghost function AddBits(s: Schema, id: nat, fields: iset<nat>): Schema
    requires id in s
  {
    s[id := s[id].(mask := Or(s[id].mask, MaskOf(fields)))]
  }

  /** `space_reset_fk_constraint_mask`. */
  ghost function Reset(s: Schema, id: nat): Schema
    requires id in s
  {
    s[id := s[id].(mask := MaskOf(Linked(s[id])))]
  }

  /** The name that an index takes. */
  function TakenName(x: Option<Index>): Option<string>
  {
    if x.Some? && x.value.unique then Some(x.value.name) else None
  }

  function NameSet(n: Option<string>): set<string>
  {
    if n.Some? then {n.value} else {}
  }

  /** Make, drop or alter an index, with the name it takes. */
  function SetIndex(sp: Space, iid: nat, x: Option<Index>): Space
  {
    var before := TakenName(if iid in sp.index then Some(sp.index[iid]) else None);
    sp.(index := if x.Some? then sp.index[iid := x.value] else sp.index - {iid},
        ids := if before == TakenName(x) then sp.ids else sp.ids - NameSet(before) + NameSet(TakenName(x)))
  }

  datatype Op =
    | CreateSpace(id: nat)
    | DropSpace(id: nat)
    | ChangeIndex(id: nat, iid: nat, x: Option<Index>)
    | CreateFk(fk: Fk)
    | ReplaceFk(fk: Fk)
    | DropFk(fk: Fk)
    | CreateCk(id: nat, name: string)
    | DropCk(id: nat, name: string)

  /** The foreign key of the same name that is replaced. */
  ghost predicate Replaces(s: Schema, old_: Fk, fk: Fk)
  {
    fk.child in s && old_ in s[fk.child].childFk && old_.name == fk.name
  }

  ghost predicate CanReplace(s: Schema, fk: Fk)
  {
    exists o :: Replaces(s, o, fk)
  }

  /** No foreign key refers to the index. */
  ghost predicate Unreferenced(sp: Space, iid: nat)
  {
    forall fk | fk in sp.parentFk :: fk.index != iid
  }

  /** What the triggers check before they change anything. */
  ghost predicate Allowed(s: Schema, op: Op)
  {
    match op
    case CreateSpace(id) => id !in s
    case DropSpace(id) => id in s && s[id].index == map[] && s[id].childFk == {} && s[id].checks == {}
    case ChangeIndex(id, iid, x) =>
      && id in s
      && (x.None? ==> iid in s[id].index && Unreferenced(s[id], iid))
      && (TakenName(x).Some? && !(iid in s[id].index && TakenName(Some(s[id].index[iid])) == TakenName(x)) ==> TakenName(x).value !in s[id].ids)
    case CreateFk(fk) => fk.child in s && fk.parent in s && fk.index in s[fk.parent].index && fk.name !in s[fk.child].ids
    case ReplaceFk(fk) => fk.child in s && fk.parent in s && fk.index in s[fk.parent].index && CanReplace(s, fk)
    case DropFk(fk) => fk.child in s && fk in s[fk.child].childFk
    case CreateCk(id, name) => id in s && name !in s[id].ids
    case DropCk(id, name) => id in s && name in s[id].checks
  }

  /** A space without indexes and constraints. */
  function Blank(): Space
  {
    Space(map[], {}, {}, {}, {}, Zero())
  }

  /** The new schema; `o` is the foreign key that is replaced, if any. */
  ghost function Apply(s: Schema, op: Op, o: Fk): Schema
    requires Inv(s) && Allowed(s, op) && (op.ReplaceFk? ==> Replaces(s, o, op.fk))
  {
    match op
    case CreateSpace(id) => s[id := Blank()]
    case DropSpace(id) => s - {id}
    case ChangeIndex(id, iid, x) => s[id := SetIndex(s[id], iid, x)]
    case CreateFk(fk) => SetMasks(AddFk(TakeName(s, fk.child, fk.name), fk), fk)
    case ReplaceFk(fk) =>
      assert SpaceOK(s, fk.child) && FkOK(s, o);
      Reset(Reset(AddFk(RemoveFk(s, o), fk), fk.child), fk.parent)
    case DropFk(fk) =>
      assert SpaceOK(s, fk.child) && FkOK(s, fk);
      Reset(Reset(FreeName(RemoveFk(s, fk), fk.child, fk.name), fk.child), fk.parent)
    case CreateCk(id, name) => TakeName(s[id := s[id].(checks := s[id].checks + {name})], id, name)
    case DropCk(id, name) => FreeName(s[id := s[id].(checks := s[id].checks - {name})], id, name)
  }

  /** What is kept for a rollback. */
  datatype Record = Record(op: Op, replaced: Fk, oldIndex: Option<Index>, oldSpace: Space)

  ghost predicate IsRecord(s: Schema, r: Record)
  {
    && Allowed(s, r.op)
    && (r.op.ReplaceFk? ==> Replaces(s, r.replaced, r.op.fk))
    && (r.op.ChangeIndex? ==> r.oldIndex == if r.op.iid in s[r.op.id].index then Some(s[r.op.id].index[r.op.iid]) else None)
    && (r.op.DropSpace? ==> r.oldSpace == s[r.op.id])
  }

  /** The schemas are the same, masks aside. */
  ghost predicate SameButMasks(s: Schema, t: Schema)
  {
    s.Keys == t.Keys && forall id | id in s :: s[id] == t[id].(mask := s[id].mask)
  }

  /** What a rollback trigger relies on: the spaces that the change concerned are there. */
  ghost predicate CanUndo(t: Schema, r: Record)
  {
    match r.op
    case CreateSpace(id) => id in t
    case DropSpace(id) => id !in t
    case ChangeIndex(id, iid, x) => id in t
    case CreateFk(fk) => fk.child in t && fk.parent in t
    case ReplaceFk(fk) => fk.child in t && fk.parent in t && r.replaced.child in t && r.replaced.parent in t
    case DropFk(fk) => fk.child in t && fk.parent in t
    case CreateCk(id, name) => id in t
    case DropCk(id, name) => id in t
  }

  /** The rollback triggers. */
  ghost function Undo(t: Schema, r: Record): Schema
    requires CanUndo(t, r)
  {
    match r.op
    case CreateSpace(id) => t - {id}
    case DropSpace(id) => t[id := r.oldSpace]
    case ChangeIndex(id, iid, x) => t[id := SetIndex(t[id], iid, r.oldIndex)]
    case CreateFk(fk) => Reset(Reset(FreeName(RemoveFk(t, fk), fk.child, fk.name), fk.parent), fk.child)
    case ReplaceFk(fk) => Reset(Reset(AddFk(RemoveFk(t, fk), r.replaced), r.replaced.parent), r.replaced.child)
    case DropFk(fk) => SetMasks(AddFk(TakeName(t, fk.child, fk.name), fk), fk)
    case CreateCk(id, name) => FreeName(t[id := t[id].(checks := t[id].checks - {name})], id, name)
    case DropCk(id, name) => TakeName(t[id := t[id].(checks := t[id].checks + {name})], id, name)
  }

  // ---------------------------------------------------------------------------
  // Masks
  // ---------------------------------------------------------------------------

  ghost function LinkedBy(fk: Fk, id: nat): iset<nat>
  {
    (if id == fk.child then ChildFields(fk) else iset{}) + (if id == fk.parent then ParentFields(fk) else iset{})
  }

  lemma LinkedAfterAdd(s: Schema, fk: Fk, id: nat)
    requires fk.child in s && fk.parent in s && id in s
    ensures Linked(AddFk(s, fk)[id]) == Linked(s[id]) + LinkedBy(fk, id)
  {
    var sp, sp' := s[id], AddFk(s, fk)[id];
    forall f: nat ensures f in Linked(sp') <==> f in Linked(sp) + LinkedBy(fk, id) {
      if IsLinked(sp', f) {
        if x :| x in sp'.childFk && ChildField(x, f) {
          assert x in sp.childFk || (x == fk && id == fk.child);
        } else {
          var y :| y in sp'.parentFk && ParentField(y, f);
          assert y in sp.parentFk || (y == fk && id == fk.parent);
        }
      }
      if f in LinkedBy(fk, id) {
        assert (fk in sp'.childFk && ChildField(fk, f)) || (fk in sp'.parentFk && ParentField(fk, f));
      }
      if IsLinked(sp, f) {
        assert sp.childFk <= sp'.childFk && sp.parentFk <= sp'.parentFk;
      }
    }
  }

  lemma LinkedAfterRemove(s: Schema, fk: Fk, id: nat)
    requires fk.child in s && fk.parent in s && id in s
    ensures Linked(RemoveFk(s, fk)[id]) <= Linked(s[id])
    ensures id != fk.child && id != fk.parent ==> RemoveFk(s, fk)[id] == s[id]
  {
    assert RemoveFk(s, fk)[id].childFk <= s[id].childFk && RemoveFk(s, fk)[id].parentFk <= s[id].parentFk;
  }

  lemma CoversLess(mask: Mask, fields: iset<nat>, less: iset<nat>)
    requires Covers(mask, fields) && less <= fields
    ensures Covers(mask, less)
  {
  }

  /** Adding a foreign key and its bits keeps masks covering, and exact. */
  lemma AddKeepsMasks(s: Schema, fk: Fk)
    requires fk.child in s && fk.parent in s
    ensures MasksCover(s) ==> MasksCover(SetMasks(AddFk(s, fk), fk))
    ensures MasksExact(s) ==> MasksExact(SetMasks(AddFk(s, fk), fk))
  {
    var s1 := AddFk(s, fk);
    forall id | id in s
      ensures Covers(s[id].mask, Linked(s[id])) ==> Covers(SetMasks(s1, fk)[id].mask, Linked(SetMasks(s1, fk)[id]))
      ensures Exact(s[id].mask, Linked(s[id])) ==> Exact(SetMasks(s1, fk)[id].mask, Linked(SetMasks(s1, fk)[id]))
    {
      AddedBits(s, fk, id);
    }
  }

  lemma AddedBits(s: Schema, fk: Fk, id: nat)
    requires fk.child in s && fk.parent in s && id in s
    ensures var t := SetMasks(AddFk(s, fk), fk);
            && (Covers(s[id].mask, Linked(s[id])) ==> Covers(t[id].mask, Linked(t[id])))
            && (Exact(s[id].mask, Linked(s[id])) ==> Exact(t[id].mask, Linked(t[id])))
  {
    var t := SetMasks(AddFk(s, fk), fk);
    LinkedAfterAdd(s, fk, id);
    assert Linked(t[id]) == Linked(AddFk(s, fk)[id]) by { SameLists(t[id], AddFk(s, fk)[id]); }
    var a, b := ParentFields(fk), ChildFields(fk);
    var old_, mask := Linked(s[id]), s[id].mask;
    if id == fk.parent && id == fk.child {
      assert old_ + LinkedBy(fk, id) == old_ + a + b;
      if Covers(mask, old_) { CoversMore(mask, old_, a); CoversMore(Or(mask, MaskOf(a)), old_ + a, b); }
      if Exact(mask, old_) { BothExact(mask, old_, MaskOf(a), a); BothExact(Or(mask, MaskOf(a)), old_ + a, MaskOf(b), b); }
    } else if id == fk.parent {
      assert old_ + LinkedBy(fk, id) == old_ + a;
      if Covers(mask, old_) { CoversMore(mask, old_, a); }
      if Exact(mask, old_) { BothExact(mask, old_, MaskOf(a), a); }
    } else if id == fk.child {
      assert old_ + LinkedBy(fk, id) == old_ + b;
      if Covers(mask, old_) { CoversMore(mask, old_, b); }
      if Exact(mask, old_) { BothExact(mask, old_, MaskOf(b), b); }
    } else {
      assert old_ + LinkedBy(fk, id) == old_;
    }
  }

  lemma SameLists(a: Space, b: Space)
    requires a.childFk == b.childFk && a.parentFk == b.parentFk
    ensures Linked(a) == Linked(b)
  {
    assert forall f: nat :: IsLinked(a, f) <==> IsLinked(b, f);
  }

  /** Removing a foreign key keeps masks covering; masks of spaces it does not touch stay as they are. */
  lemma RemoveKeepsMasks(s: Schema, fk: Fk)
    requires fk.child in s && fk.parent in s && MasksCover(s)
    ensures MasksCover(RemoveFk(s, fk))
  {
    forall id | id in s ensures Covers(RemoveFk(s, fk)[id].mask, Linked(RemoveFk(s, fk)[id])) {
      LinkedAfterRemove(s, fk, id);
      CoversLess(s[id].mask, Linked(s[id]), Linked(RemoveFk(s, fk)[id]));
    }
  }

  lemma ResetIsExact(s: Schema, id: nat)
    requires id in s
    ensures Exact(Reset(s, id)[id].mask, Linked(Reset(s, id)[id])) && Covers(Reset(s, id)[id].mask, Linked(Reset(s, id)[id]))
  {
    SameLists(Reset(s, id)[id], s[id]);
    ExactCovers(MaskOf(Linked(s[id])), Linked(s[id]));
  }

  /** After both spaces are reset, their masks are exact; other masks are untouched. */
  lemma ResetBoth(s: Schema, a: nat, b: nat)
    requires a in s && b in s
    ensures var t := Reset(Reset(s, a), b);
            && (forall id | id in s :: id == a || id == b ==> Exact(t[id].mask, Linked(t[id])) && Covers(t[id].mask, Linked(t[id])))
            && (forall id | id in s && id != a && id != b :: t[id] == s[id])
  {
    ResetIsExact(s, a);
    ResetIsExact(Reset(s, a), b);
  }

  /** A replacement keeps the parent. */
  predicate KeepsParent(r: Record)
  {
    r.op.ReplaceFk? ==> r.op.fk.parent == r.replaced.parent
  }

  lemma SwapMasks(s: Schema, out_: Fk, in_: Fk, a: nat, b: nat)
    requires MasksCover(s) && out_.child in s && out_.parent in s && in_.child in s && in_.parent in s && {a, b} == {in_.child, in_.parent}
    requires out_.child == in_.child
    ensures MasksCover(Reset(Reset(AddFk(RemoveFk(s, out_), in_), a), b))
    ensures MasksExact(s) && out_.parent == in_.parent ==> MasksExact(Reset(Reset(AddFk(RemoveFk(s, out_), in_), a), b))
  {
    RemoveKeepsMasks(s, out_);
    AddMasks(RemoveFk(s, out_), in_, a, b);
    if MasksExact(s) && out_.parent == in_.parent {
      forall id | id in s && id != a && id != b ensures RemoveFk(s, out_)[id] == s[id] { }
    }
  }

  /** The masks of both spaces are computed anew; all others stay. */
  lemma AddMasks(s: Schema, fk: Fk, a: nat, b: nat)
    requires MasksCover(s) && fk.child in s && fk.parent in s && {a, b} == {fk.child, fk.parent}
    ensures var t := Reset(Reset(AddFk(s, fk), a), b);
            MasksCover(t) && ((forall id | id in s && id != a && id != b :: Exact(s[id].mask, Linked(s[id]))) ==> MasksExact(t))
  {
    ResetBoth(AddFk(s, fk), a, b);
    forall id | id in s && id != a && id != b ensures AddFk(s, fk)[id] == s[id] { }
  }

  lemma RemoveMasks(s: Schema, fk: Fk, a: nat, b: nat)
    requires MasksCover(s) && fk.child in s && fk.parent in s && {a, b} == {fk.child, fk.parent}
    ensures MasksCover(Reset(Reset(FreeName(RemoveFk(s, fk), fk.child, fk.name), a), b))
    ensures MasksExact(s) ==> MasksExact(Reset(Reset(FreeName(RemoveFk(s, fk), fk.child, fk.name), a), b))
  {
    RemoveKeepsMasks(s, fk);
    ResetBoth(FreeName(RemoveFk(s, fk), fk.child, fk.name), a, b);
  }

  /** A change of names, indexes or checks of one space does not concern masks. */
  lemma OtherMasks(s: Schema, id: nat, sp: Space)
    requires id in s && sp.childFk == s[id].childFk && sp.parentFk == s[id].parentFk && sp.mask == s[id].mask
    ensures MasksCover(s) ==> MasksCover(s[id := sp])
    ensures MasksExact(s) ==> MasksExact(s[id := sp])
  {
    SameLists(sp, s[id]);
  }

  lemma BlankMask(s: Schema, id: nat)
    requires id !in s
    ensures MasksCover(s) ==> MasksCover(s[id := Blank()])
    ensures MasksExact(s) ==> MasksExact(s[id := Blank()])
  {
    assert forall f: nat :: !IsLinked(Blank(), f);
  }

  /** Every change keeps all masks covering; and exact, if a replaced foreign key keeps its parent. */
  lemma ApplyMasks(s: Schema, r: Record)
    requires Inv(s) && IsRecord(s, r)
    ensures MasksCover(Apply(s, r.op, r.replaced))
    ensures MasksExact(s) && KeepsParent(r) ==> MasksExact(Apply(s, r.op, r.replaced))
  {
    match r.op {
      case CreateSpace(id) => BlankMask(s, id);
      case DropSpace(id) =>
      case ChangeIndex(id, iid, x) => OtherMasks(s, id, SetIndex(s[id], iid, x));
      case CreateFk(fk) =>
        OtherMasks(s, fk.child, TakeName(s, fk.child, fk.name)[fk.child]);
        AddKeepsMasks(TakeName(s, fk.child, fk.name), fk);
      case ReplaceFk(fk) =>
        assert SpaceOK(s, fk.child) && FkOK(s, r.replaced);
        SwapMasks(s, r.replaced, fk, fk.child, fk.parent);
      case DropFk(fk) =>
        assert SpaceOK(s, fk.child) && FkOK(s, fk);
        RemoveMasks(s, fk, fk.child, fk.parent);
      case CreateCk(id, name) => OtherMasks(s, id, Apply(s, r.op, r.replaced)[id]);
      case DropCk(id, name) => OtherMasks(s, id, Apply(s, r.op, r.replaced)[id]);
    }
  }

  /** So does every rollback. */
  lemma UndoMasks(t: Schema, r: Record)
    requires CanUndo(t, r) && MasksCover(t) && (r.op.DropSpace? ==> Covers(r.oldSpace.mask, Linked(r.oldSpace)))
    requires r.op.ReplaceFk? ==> r.op.fk.child == r.replaced.child
    ensures MasksCover(Undo(t, r))
    ensures MasksExact(t) && KeepsParent(r) && (r.op.DropSpace? ==> Exact(r.oldSpace.mask, Linked(r.oldSpace))) ==> MasksExact(Undo(t, r))
  {
    match r.op {
      case CreateSpace(id) =>
      case DropSpace(id) =>
      case ChangeIndex(id, iid, x) => OtherMasks(t, id, SetIndex(t[id], iid, r.oldIndex));
      case CreateFk(fk) => RemoveMasks(t, fk, fk.parent, fk.child);
      case ReplaceFk(fk) => SwapMasks(t, fk, r.replaced, r.replaced.parent, r.replaced.child);
      case DropFk(fk) =>
        OtherMasks(t, fk.child, TakeName(t, fk.child, fk.name)[fk.child]);
        AddKeepsMasks(TakeName(t, fk.child, fk.name), fk);
      case CreateCk(id, name) => OtherMasks(t, id, Undo(t, r)[id]);
      case DropCk(id, name) => OtherMasks(t, id, Undo(t, r)[id]);
    }
  }

  /** The other links of the parent have all bits of the foreign key. */
  ghost predicate OthersCover(s: Schema, fk: Fk)
  {
    fk.child in s && fk.parent in s && forall b: nat | b < BITS && HasBit(ParentFields(fk), b) :: HasBit(Linked(RemoveFk(s, fk)[fk.parent]), b)
  }

  /** The mask of the parent, when a foreign key is taken from its list and the mask left as it was. */
  lemma OldParentMask(s: Schema, fk: Fk)
    requires fk.child in s && fk.parent in s && fk.parent != fk.child && fk in s[fk.parent].parentFk && MasksExact(s)
    ensures var u := RemoveFk(s, fk)[fk.parent]; Exact(u.mask, Linked(u)) <==> OthersCover(s, fk)
  {
    var u := RemoveFk(s, fk)[fk.parent];
    SplitLinked(s[fk.parent], u, fk);
    if OthersCover(s, fk) {
      forall b: nat | b < BITS ensures u.mask[b] <==> HasBit(Linked(u), b) { }
    }
  }

  /** When one foreign key of a space takes the place of another: all masks stay exact, exactly if that of the old parent does. */
  lemma SwapMasksExactly(s: Schema, out_: Fk, in_: Fk, a: nat, b: nat)
    requires MasksCover(s) && MasksExact(s) && out_.child in s && out_.parent in s && in_.child in s && in_.parent in s && {a, b} == {in_.child, in_.parent}
    requires out_.child == in_.child && out_ in s[out_.parent].parentFk
    ensures MasksExact(Reset(Reset(AddFk(RemoveFk(s, out_), in_), a), b)) <==>
            out_.parent == in_.parent || out_.parent == in_.child || OthersCover(s, out_)
  {
    var s1, p := RemoveFk(s, out_), out_.parent;
    var t := Reset(Reset(AddFk(s1, in_), a), b);
    RemoveKeepsMasks(s, out_);
    AddMasks(s1, in_, a, b);
    forall id | id in s && id != a && id != b && id != p ensures s1[id] == s[id] { }
    if p != a && p != b {
      OldParentMask(s, out_);
      assert t[p] == s1[p] by { ResetBoth(AddFk(s1, in_), a, b); }
    }
  }

  /**
   A change leaves all masks exact, except when a replacement gives a foreign key another
   parent and the links that are left have not all bits of the old one.
   */
  lemma StaleMask(s: Schema, r: Record)
    requires Inv(s) && MasksExact(s) && IsRecord(s, r)
    ensures MasksExact(Apply(s, r.op, r.replaced)) <==> KeepsParent(r) || r.replaced.parent == r.op.fk.child || OthersCover(s, r.replaced)
  {
    ApplyMasks(s, r);
    if r.op.ReplaceFk? {
      assert SpaceOK(s, r.op.fk.child) && FkOK(s, r.replaced);
      SwapMasksExactly(s, r.replaced, r.op.fk, r.op.fk.child, r.op.fk.parent);
    }
  }

  /** A rollback leaves all masks exact, with the same exception. */
  lemma StaleMaskUndone(t: Schema, r: Record)
    requires CanUndo(t, r) && MasksCover(t) && MasksExact(t) && (r.op.DropSpace? ==> Exact(r.oldSpace.mask, Linked(r.oldSpace)) && Covers(r.oldSpace.mask, Linked(r.oldSpace)))
    requires r.op.ReplaceFk? ==> r.op.fk.child == r.replaced.child && r.op.fk in t[r.op.fk.parent].parentFk
    ensures MasksExact(Undo(t, r)) <==> KeepsParent(r) || r.op.fk.parent == r.replaced.child || OthersCover(t, r.op.fk)
  {
    UndoMasks(t, r);
    if r.op.ReplaceFk? { SwapMasksExactly(t, r.op.fk, r.replaced, r.replaced.parent, r.replaced.child); }
  }

  /** The bits of the links of a space are those of one foreign key and those of the others. */
  lemma SplitLinked(sp: Space, u: Space, fk: Fk)
    requires fk in sp.parentFk && u.parentFk == sp.parentFk - {fk} && u.childFk == sp.childFk
    ensures forall b: nat :: HasBit(Linked(sp), b) <==> HasBit(Linked(u), b) || HasBit(ParentFields(fk), b)
  {
    forall f: nat ensures f in Linked(sp) <==> f in Linked(u) || f in ParentFields(fk) {
      if IsLinked(sp, f) && !(exists x :: x in sp.childFk && ChildField(x, f)) {
        var y :| y in sp.parentFk && ParentField(y, f);
        assert y == fk || y in u.parentFk;
      }
      if ParentField(fk, f) { assert fk in sp.parentFk; }
    }
    forall b: nat ensures HasBit(Linked(sp), b) <==> HasBit(Linked(u), b) || HasBit(ParentFields(fk), b) {
      if HasBit(Linked(sp), b) {
        var f :| f in Linked(sp) && Bit(f) == b;
        assert f in Linked(u) || f in ParentFields(fk);
      }
      if HasBit(Linked(u), b) {
        var f :| f in Linked(u) && Bit(f) == b;
        assert f in Linked(sp);
      }
      if HasBit(ParentFields(fk), b) {
        var f :| f in ParentFields(fk) && Bit(f) == b;
        assert f in Linked(sp);
      }
    }
  }

  // ---------------------------------------------------------------------------
  // Names and lists
  // ---------------------------------------------------------------------------

  lemma SoundIgnoresMasks(s: Schema, t: Schema)
    requires SameButMasks(s, t) && Sound(s)
    ensures Sound(t)
  {
    forall id | id in t ensures SpaceOK(t, id) {
      assert SpaceOK(s, id);
      SameNames(s[id], t[id]);
      forall fk | fk in t[id].childFk ensures fk.child == id && FkOK(t, fk) { assert FkOK(s, fk); }
      forall fk | fk in t[id].parentFk ensures fk.parent == id && FkOK(t, fk) { assert FkOK(s, fk); }
    }
  }

  lemma SameNames(a: Space, b: Space)
    requires NamesOK(a) && a.index == b.index && a.childFk == b.childFk && a.checks == b.checks && a.ids == b.ids
    ensures NamesOK(b)
  {
    assert forall n :: (UniqueName(a, n) <==> UniqueName(b, n)) && (FkName(a, n) <==> FkName(b, n));
  }

  /** An index takes a free name, keeps its name, or gives it up. */
  lemma IndexNames(sp: Space, iid: nat, x: Option<Index>)
    requires NamesOK(sp)
    requires TakenName(x).Some? && !(iid in sp.index && TakenName(Some(sp.index[iid])) == TakenName(x)) ==> TakenName(x).value !in sp.ids
    ensures NamesOK(SetIndex(sp, iid, x))
  {
    var sp' := SetIndex(sp, iid, x);
    var before := TakenName(if iid in sp.index then Some(sp.index[iid]) else None);
    forall n ensures UniqueName(sp', n) <==> (UniqueName(sp, n) && before != Some(n)) || TakenName(x) == Some(n) {
      if UniqueName(sp', n) {
        var i :| i in sp'.index && sp'.index[i] == Index(n, true);
        assert i == iid || (i in sp.index && sp.index[i] == Index(n, true));
      }
      if UniqueName(sp, n) && before != Some(n) {
        var i :| i in sp.index && sp.index[i] == Index(n, true);
        assert i != iid && sp'.index[i] == Index(n, true);
      }
      if TakenName(x) == Some(n) { assert sp'.index[iid] == Index(n, true); }
    }
    assert forall n :: FkName(sp', n) <==> FkName(sp, n);
    if before.Some? { assert sp.index[iid] == Index(before.value, true) && UniqueName(sp, before.value); }
    forall i | i in sp.index && sp.index[i].unique ensures sp.index[i].name in sp.ids { assert UniqueName(sp, sp.index[i].name); }
  }

  lemma FkNameAdded(sp: Space, fk: Fk)
    requires NamesOK(sp) && fk.name !in sp.ids
    ensures NamesOK(sp.(childFk := sp.childFk + {fk}, ids := sp.ids + {fk.name}))
  {
    var sp' := sp.(childFk := sp.childFk + {fk}, ids := sp.ids + {fk.name});
    forall n ensures (FkName(sp', n) <==> FkName(sp, n) || n == fk.name) && (UniqueName(sp', n) <==> UniqueName(sp, n)) {
      if n == fk.name { assert fk in sp'.childFk; }
      if FkName(sp, n) {
        var y :| y in sp.childFk && y.name == n;
        assert y in sp'.childFk;
      }
    }
    forall y | y in sp.childFk ensures y.name in sp.ids { assert FkName(sp, y.name); }
  }

  lemma FkNameRemoved(sp: Space, fk: Fk)
    requires NamesOK(sp) && fk in sp.childFk
    ensures NamesOK(sp.(childFk := sp.childFk - {fk}, ids := sp.ids - {fk.name}))
  {
    var sp' := sp.(childFk := sp.childFk - {fk}, ids := sp.ids - {fk.name});
    assert FkName(sp, fk.name);
    forall n ensures (FkName(sp', n) <==> FkName(sp, n) && n != fk.name) && (UniqueName(sp', n) <==> UniqueName(sp, n)) {
      if FkName(sp, n) && n != fk.name {
        var y :| y in sp.childFk && y.name == n;
        assert y in sp'.childFk;
      }
    }
  }

  lemma FkNameReplaced(sp: Space, out_: Fk, in_: Fk)
    requires NamesOK(sp) && out_ in sp.childFk && out_.name == in_.name
    ensures NamesOK(sp.(childFk := sp.childFk - {out_} + {in_}))
  {
    var sp' := sp.(childFk := sp.childFk - {out_} + {in_});
    forall n ensures (FkName(sp', n) <==> FkName(sp, n)) && (UniqueName(sp', n) <==> UniqueName(sp, n)) {
      if FkName(sp, n) {
        var y :| y in sp.childFk && y.name == n;
        assert in_ in sp'.childFk && (y == out_ || y in sp'.childFk);
      }
    }
  }

  lemma CheckNames(sp: Space, name: string)
    requires NamesOK(sp)
    ensures name !in sp.ids ==> NamesOK(sp.(checks := sp.checks + {name}, ids := sp.ids + {name}))
    ensures name in sp.checks ==> NamesOK(sp.(checks := sp.checks - {name}, ids := sp.ids - {name}))
  {
    var a, b := sp.(checks := sp.checks + {name}, ids := sp.ids + {name}), sp.(checks := sp.checks - {name}, ids := sp.ids - {name});
    assert forall n :: (FkName(a, n) <==> FkName(sp, n)) && (UniqueName(a, n) <==> UniqueName(sp, n));
    assert forall n :: (FkName(b, n) <==> FkName(sp, n)) && (UniqueName(b, n) <==> UniqueName(sp, n));
  }

  /** Foreign keys still find their lists. */
  lemma ListsStay(s: Schema, t: Schema)
    requires AllLists(s) && s.Keys == t.Keys
    requires forall id | id in s :: t[id].childFk == s[id].childFk && t[id].parentFk == s[id].parentFk
    requires forall id, fk | id in s && fk in s[id].parentFk :: fk.index in t[id].index
    ensures AllLists(t)
  {
    forall id: nat | id in t ensures ListsOK(t, id) {
      assert ListsAt(s, id);
      forall fk | fk in t[id].childFk ensures fk.child == id && FkOK(t, fk) { assert FkOK(s, fk); }
      forall fk | fk in t[id].parentFk ensures fk.parent == id && FkOK(t, fk) { assert FkOK(s, fk); }
    }
  }

  lemma AddLists(s: Schema, fk: Fk)
    requires AllLists(s) && fk.child in s && fk.parent in s && fk.index in s[fk.parent].index
    ensures AllLists(AddFk(s, fk))
  {
    var t := AddFk(s, fk);
    forall id: nat | id in s ensures ListsOK(t, id) {
      assert ListsAt(s, id);
      forall x | x in t[id].childFk ensures x.child == id && FkOK(t, x) { if x != fk { assert FkOK(s, x); } }
      forall x | x in t[id].parentFk ensures x.parent == id && FkOK(t, x) { if x != fk { assert FkOK(s, x); } }
    }
  }

  lemma RemoveLists(s: Schema, fk: Fk)
    requires AllLists(s) && fk.child in s && fk.parent in s
    ensures AllLists(RemoveFk(s, fk))
  {
    var t := RemoveFk(s, fk);
    forall id: nat | id in s ensures ListsOK(t, id) {
      assert ListsAt(s, id);
      forall x | x in t[id].childFk ensures x.child == id && FkOK(t, x) { assert x in s[id].childFk && FkOK(s, x) && x != fk; }
      forall x | x in t[id].parentFk ensures x.parent == id && FkOK(t, x) { assert x in s[id].parentFk && FkOK(s, x) && x != fk; }
    }
  }

  /** Indexes that foreign keys refer to are there, if they have not been taken away. */
  lemma IndexesStay(s: Schema, t: Schema)
    requires AllLists(s) && s.Keys == t.Keys && forall id | id in s :: s[id].index.Keys <= t[id].index.Keys
    ensures forall id, fk | id in s && fk in s[id].parentFk :: fk.index in t[id].index
  {
    forall id, fk | id in s && fk in s[id].parentFk ensures fk.index in t[id].index { assert ListsAt(s, id) && FkOK(s, fk); }
  }

  lemma CreateFkSound(s: Schema, fk: Fk)
    requires Inv(s) && Allowed(s, CreateFk(fk))
    ensures Sound(AddFk(TakeName(s, fk.child, fk.name), fk))
  {
    var s1 := TakeName(s, fk.child, fk.name);
    SoundLists(s);
    IndexesStay(s, s1);
    ListsStay(s, s1);
    AddLists(s1, fk);
    var t := AddFk(s1, fk);
    forall id: nat | id in s ensures SpaceOK(t, id) {
      assert SpaceOK(s, id) && ListsAt(t, id);
      CreateFkNames(s, fk, id);
    }
  }

  lemma CreateFkNames(s: Schema, fk: Fk, id: nat)
    requires id in s && fk.child in s && fk.parent in s && NamesOK(s[id]) && fk.name !in s[fk.child].ids
    ensures NamesOK(AddFk(TakeName(s, fk.child, fk.name), fk)[id])
  {
    var t := AddFk(TakeName(s, fk.child, fk.name), fk);
    if id == fk.child {
      FkNameAdded(s[id], fk);
      SameNames(s[id].(childFk := s[id].childFk + {fk}, ids := s[id].ids + {fk.name}), t[id]);
    } else {
      SameNames(s[id], t[id]);
    }
  }

  lemma DropFkSound(s: Schema, fk: Fk)
    requires Inv(s) && Allowed(s, DropFk(fk))
    ensures fk.parent in s && Sound(FreeName(RemoveFk(s, fk), fk.child, fk.name))
  {
    SoundLists(s);
    assert ListsAt(s, fk.child) && FkOK(s, fk);
    RemoveLists(s, fk);
    var t := FreeName(RemoveFk(s, fk), fk.child, fk.name);
    IndexesStay(RemoveFk(s, fk), t);
    ListsStay(RemoveFk(s, fk), t);
    forall id: nat | id in s ensures SpaceOK(t, id) {
      assert SpaceOK(s, id) && ListsAt(t, id);
      DropFkNames(s, fk, id);
    }
  }

  lemma DropFkNames(s: Schema, fk: Fk, id: nat)
    requires id in s && fk.child in s && fk.parent in s && fk in s[fk.child].childFk && NamesOK(s[id])
    ensures NamesOK(FreeName(RemoveFk(s, fk), fk.child, fk.name)[id])
  {
    var t := FreeName(RemoveFk(s, fk), fk.child, fk.name);
    if id == fk.child {
      FkNameRemoved(s[id], fk);
      SameNames(s[id].(childFk := s[id].childFk - {fk}, ids := s[id].ids - {fk.name}), t[id]);
    } else {
      SameNames(s[id], t[id]);
    }
  }

  lemma ReplaceFkSound(s: Schema, o: Fk, fk: Fk)
    requires Inv(s) && Allowed(s, ReplaceFk(fk)) && Replaces(s, o, fk)
    ensures o.parent in s && o.child == fk.child && Sound(AddFk(RemoveFk(s, o), fk))
  {
    SoundLists(s);
    assert ListsAt(s, fk.child) && FkOK(s, o);
    RemoveLists(s, o);
    AddLists(RemoveFk(s, o), fk);
    var t := AddFk(RemoveFk(s, o), fk);
    forall id: nat | id in s ensures SpaceOK(t, id) {
      assert SpaceOK(s, id) && ListsAt(t, id);
      ReplaceFkNames(s, o, fk, id);
    }
  }

  lemma ReplaceFkNames(s: Schema, o: Fk, fk: Fk, id: nat)
    requires id in s && fk.child in s && fk.parent in s && o.child == fk.child && o.parent in s && NamesOK(s[id])
    requires o in s[fk.child].childFk && o.name == fk.name
    ensures NamesOK(AddFk(RemoveFk(s, o), fk)[id])
  {
    var t := AddFk(RemoveFk(s, o), fk);
    if id == fk.child {
      FkNameReplaced(s[id], o, fk);
      SameNames(s[id].(childFk := s[id].childFk - {o} + {fk}), t[id]);
    } else {
      SameNames(s[id], t[id]);
    }
  }

  lemma ResetSame(s: Schema, a: nat, b: nat)
    requires a in s && b in s
    ensures SameButMasks(s, Reset(Reset(s, a), b))
  {
  }

  lemma ChangeIndexSound(s: Schema, id: nat, iid: nat, x: Option<Index>)
    requires Inv(s) && Allowed(s, ChangeIndex(id, iid, x))
    ensures Sound(s[id := SetIndex(s[id], iid, x)])
  {
    var t := s[id := SetIndex(s[id], iid, x)];
    SoundLists(s);
    forall i, fk | i in s && fk in s[i].parentFk ensures fk.index in t[i].index { assert ListsAt(s, i) && FkOK(s, fk); }
    ListsStay(s, t);
    forall i: nat | i in s ensures SpaceOK(t, i) {
      assert SpaceOK(s, i) && ListsAt(t, i);
      if i == id { IndexNames(s[id], iid, x); }
    }
  }

  lemma CheckSound(s: Schema, op: Op, t: Schema)
    requires Inv(s) && Allowed(s, op) && (op.CreateCk? || op.DropCk?)
    requires t == s[op.id := if op.CreateCk? then s[op.id].(checks := s[op.id].checks + {op.name}, ids := s[op.id].ids + {op.name})
                                           else s[op.id].(checks := s[op.id].checks - {op.name}, ids := s[op.id].ids - {op.name})]
    ensures Sound(t)
  {
    SoundLists(s);
    IndexesStay(s, t);
    ListsStay(s, t);
    forall i: nat | i in s ensures SpaceOK(t, i) {
      assert SpaceOK(s, i) && ListsAt(t, i);
      if i == op.id { CheckNames(s[op.id], op.name); }
    }
  }

  lemma CreateSpaceSound(s: Schema, id: nat)
    requires Inv(s) && id !in s
    ensures Sound(s[id := Blank()])
  {
    var t := s[id := Blank()];
    forall i | i in t ensures SpaceOK(t, i) {
      if i != id {
        assert SpaceOK(s, i);
        forall x | x in t[i].childFk ensures x.child == i && FkOK(t, x) { assert FkOK(s, x); }
        forall x | x in t[i].parentFk ensures x.parent == i && FkOK(t, x) { assert FkOK(s, x); }
      }
    }
  }

  /** A space that may be dropped has no names left, and no foreign key refers to it. */
  lemma DroppedHasNothing(s: Schema, id: nat)
    requires Sound(s) && Allowed(s, DropSpace(id))
    ensures s[id].ids == {} && s[id].parentFk == {}
  {
    assert SpaceOK(s, id);
    forall n ensures n !in s[id].ids { }
    forall fk | fk in s[id].parentFk ensures fk.index in s[id].index { assert FkOK(s, fk); }
  }

  lemma DropSpaceSound(s: Schema, id: nat)
    requires Inv(s) && Allowed(s, DropSpace(id))
    ensures Sound(s - {id})
  {
    DroppedHasNothing(s, id);
    var t := s - {id};
    forall i | i in t ensures SpaceOK(t, i) {
      assert SpaceOK(s, i);
      forall x | x in t[i].childFk ensures x.child == i && FkOK(t, x) { assert FkOK(s, x); }
      forall x | x in t[i].parentFk ensures x.parent == i && FkOK(t, x) { assert FkOK(s, x); }
    }
  }

  /** Every change that the triggers allow keeps names and lists in order. */
  lemma ApplySound(s: Schema, r: Record)
    requires Inv(s) && IsRecord(s, r)
    ensures Sound(Apply(s, r.op, r.replaced))
  {
    match r.op {
      case CreateSpace(id) => CreateSpaceSound(s, id);
      case DropSpace(id) => DropSpaceSound(s, id);
      case ChangeIndex(id, iid, x) => ChangeIndexSound(s, id, iid, x);
      case CreateFk(fk) =>
        CreateFkSound(s, fk);
        SoundIgnoresMasks(AddFk(TakeName(s, fk.child, fk.name), fk), Apply(s, r.op, r.replaced));
      case ReplaceFk(fk) =>
        ReplaceFkSound(s, r.replaced, fk);
        ResetSame(AddFk(RemoveFk(s, r.replaced), fk), fk.child, fk.parent);
        SoundIgnoresMasks(AddFk(RemoveFk(s, r.replaced), fk), Apply(s, r.op, r.replaced));
      case DropFk(fk) =>
        DropFkSound(s, fk);
        ResetSame(FreeName(RemoveFk(s, fk), fk.child, fk.name), fk.child, fk.parent);
        SoundIgnoresMasks(FreeName(RemoveFk(s, fk), fk.child, fk.name), Apply(s, r.op, r.replaced));
      case CreateCk(id, name) => CheckSound(s, r.op, Apply(s, r.op, r.replaced));
      case DropCk(id, name) => CheckSound(s, r.op, Apply(s, r.op, r.replaced));
    }
  }

  /** Every change keeps the whole invariant. */
  lemma ApplyKeeps(s: Schema, r: Record)
    requires Inv(s) && IsRecord(s, r)
    ensures Inv(Apply(s, r.op, r.replaced))
  {
    ApplySound(s, r);
    ApplyMasks(s, r);
  }

  // ---------------------------------------------------------------------------
  // Rollback
  // ---------------------------------------------------------------------------

  lemma IndexRestored(sp: Space, iid: nat, x: Option<Index>, old_: Option<Index>)
    requires NamesOK(sp) && old_ == if iid in sp.index then Some(sp.index[iid]) else None
    requires TakenName(x).Some? && TakenName(old_) != TakenName(x) ==> TakenName(x).value !in sp.ids
    ensures SetIndex(SetIndex(sp, iid, x), iid, old_) == sp
  {
    var sp1 := SetIndex(sp, iid, x);
    var sp2 := SetIndex(sp1, iid, old_);
    if TakenName(old_).Some? {
      assert sp.index[iid] == Index(TakenName(old_).value, true);
      assert UniqueName(sp, TakenName(old_).value);
    }
    assert sp2.ids == sp.ids;
    assert sp2.index == sp.index;
  }

  /** A foreign key whose name is free is in no list. */
  lemma NotListed(s: Schema, fk: Fk)
    requires Sound(s) && fk.child in s && fk.parent in s && fk.name !in s[fk.child].ids
    ensures fk !in s[fk.child].childFk && fk !in s[fk.parent].parentFk
  {
    assert SpaceOK(s, fk.child) && SpaceOK(s, fk.parent);
    assert fk in s[fk.parent].parentFk ==> FkOK(s, fk);
    var sp := s[fk.child];
    assert fk in sp.childFk ==> FkName(sp, fk.name);
  }

  /** Removing what was added, or adding what was removed, restores both lists. */
  lemma AddedRemoved(s: Schema, t: Schema, fk: Fk)
    requires fk.child in s && fk.parent in s && SameButMasks(t, AddFk(s, fk)) && fk !in s[fk.child].childFk && fk !in s[fk.parent].parentFk
    ensures SameButMasks(RemoveFk(t, fk), s)
  {
    assert s[fk.child].childFk + {fk} - {fk} == s[fk.child].childFk;
    assert s[fk.parent].parentFk + {fk} - {fk} == s[fk.parent].parentFk;
  }

  lemma RemovedAdded(s: Schema, t: Schema, fk: Fk)
    requires FkOK(s, fk) && SameButMasks(t, RemoveFk(s, fk))
    ensures SameButMasks(AddFk(t, fk), s)
  {
    assert s[fk.child].childFk - {fk} + {fk} == s[fk.child].childFk;
    assert s[fk.parent].parentFk - {fk} + {fk} == s[fk.parent].parentFk;
  }

  lemma SameTrans(a: Schema, b: Schema, c: Schema)
    requires SameButMasks(a, b) && SameButMasks(b, c)
    ensures SameButMasks(a, c) && SameButMasks(b, a)
  {
  }

  lemma NamesApart(s: Schema, t: Schema, id: nat, n: string)
    requires id in s && SameButMasks(s, t)
    ensures SameButMasks(TakeName(s, id, n), TakeName(t, id, n)) && SameButMasks(FreeName(s, id, n), FreeName(t, id, n))
  {
  }

  lemma UndoCreateFk(s: Schema, t: Schema, fk: Fk)
    requires Sound(s) && Allowed(s, CreateFk(fk)) && SameButMasks(t, AddFk(TakeName(s, fk.child, fk.name), fk))
    ensures SameButMasks(FreeName(RemoveFk(t, fk), fk.child, fk.name), s)
  {
    NotListed(s, fk);
    var s1 := TakeName(s, fk.child, fk.name);
    AddedRemoved(s1, t, fk);
    NamesApart(RemoveFk(t, fk), s1, fk.child, fk.name);
    assert s[fk.child].ids + {fk.name} - {fk.name} == s[fk.child].ids;
    assert FreeName(s1, fk.child, fk.name) == s;
  }

  lemma UndoDropFk(s: Schema, t: Schema, fk: Fk)
    requires Sound(s) && Allowed(s, DropFk(fk)) && fk.parent in s && SameButMasks(t, FreeName(RemoveFk(s, fk), fk.child, fk.name))
    ensures SameButMasks(AddFk(TakeName(t, fk.child, fk.name), fk), s)
  {
    assert SpaceOK(s, fk.child) && FkOK(s, fk);
    assert FkName(s[fk.child], fk.name);
    assert s[fk.child].ids - {fk.name} + {fk.name} == s[fk.child].ids;
    var t1 := TakeName(t, fk.child, fk.name);
    assert SameButMasks(t1, RemoveFk(s, fk));
    RemovedAdded(s, t1, fk);
  }

  lemma UndoReplaceFk(s: Schema, t: Schema, o: Fk, fk: Fk)
    requires Sound(s) && Allowed(s, ReplaceFk(fk)) && Replaces(s, o, fk) && o.child == fk.child && o.parent in s
    requires SameButMasks(t, AddFk(RemoveFk(s, o), fk))
    ensures SameButMasks(AddFk(RemoveFk(t, fk), o), s)
  {
    assert SpaceOK(s, fk.child) && SpaceOK(s, fk.parent) && FkOK(s, o);
    var s1 := RemoveFk(s, o);
    assert fk in s[fk.parent].parentFk ==> FkOK(s, fk);
    AddedRemoved(s1, t, fk);
    RemovedAdded(s, RemoveFk(t, fk), o);
  }

  lemma CreateFkRestored(s: Schema, t: Schema, r: Record, fk: Fk)
    requires Inv(s) && IsRecord(s, r) && r.op == CreateFk(fk) && SameButMasks(t, Apply(s, r.op, r.replaced))
    ensures CanUndo(t, r) && SameButMasks(Undo(t, r), s)
  {
    SameTrans(t, Apply(s, r.op, r.replaced), AddFk(TakeName(s, fk.child, fk.name), fk));
    UndoCreateFk(s, t, fk);
    ResetSame(FreeName(RemoveFk(t, fk), fk.child, fk.name), fk.parent, fk.child);
  }

  lemma ReplaceFkRestored(s: Schema, t: Schema, r: Record, fk: Fk)
    requires Inv(s) && IsRecord(s, r) && r.op == ReplaceFk(fk) && SameButMasks(t, Apply(s, r.op, r.replaced))
    ensures CanUndo(t, r) && SameButMasks(Undo(t, r), s)
  {
    ReplaceFkSound(s, r.replaced, fk);
    ResetSame(AddFk(RemoveFk(s, r.replaced), fk), fk.child, fk.parent);
    SameTrans(t, Apply(s, r.op, r.replaced), AddFk(RemoveFk(s, r.replaced), fk));
    UndoReplaceFk(s, t, r.replaced, fk);
    ResetSame(AddFk(RemoveFk(t, fk), r.replaced), r.replaced.parent, r.replaced.child);
  }

  lemma DropFkRestored(s: Schema, t: Schema, r: Record, fk: Fk)
    requires Inv(s) && IsRecord(s, r) && r.op == DropFk(fk) && SameButMasks(t, Apply(s, r.op, r.replaced))
    ensures CanUndo(t, r) && SameButMasks(Undo(t, r), s)
  {
    DropFkSound(s, fk);
    ResetSame(FreeName(RemoveFk(s, fk), fk.child, fk.name), fk.child, fk.parent);
    SameTrans(t, Apply(s, r.op, r.replaced), FreeName(RemoveFk(s, fk), fk.child, fk.name));
    UndoDropFk(s, t, fk);
  }

  lemma CkRestored(s: Schema, t: Schema, r: Record)
    requires Inv(s) && IsRecord(s, r) && (r.op.CreateCk? || r.op.DropCk?) && SameButMasks(t, Apply(s, r.op, r.replaced))
    ensures CanUndo(t, r) && SameButMasks(Undo(t, r), s)
  {
    var id, name := r.op.id, r.op.name;
    assert SpaceOK(s, id);
    if r.op.CreateCk? {
      assert s[id].checks + {name} - {name} == s[id].checks && s[id].ids + {name} - {name} == s[id].ids;
    } else {
      assert s[id].checks - {name} + {name} == s[id].checks && s[id].ids - {name} + {name} == s[id].ids;
    }
  }

  lemma IndexChangeRestored(s: Schema, t: Schema, r: Record)
    requires Inv(s) && IsRecord(s, r) && r.op.ChangeIndex? && SameButMasks(t, Apply(s, r.op, r.replaced))
    ensures CanUndo(t, r) && SameButMasks(Undo(t, r), s)
  {
    assert SpaceOK(s, r.op.id);
    IndexRestored(s[r.op.id], r.op.iid, r.op.x, r.oldIndex);
  }

  /** A rollback restores everything but the masks, whatever the masks are by then. */
  lemma UndoRestores(s: Schema, t: Schema, r: Record)
    requires Inv(s) && IsRecord(s, r) && SameButMasks(t, Apply(s, r.op, r.replaced))
    ensures CanUndo(t, r) && SameButMasks(Undo(t, r), s)
  {
    match r.op {
      case CreateSpace(id) => assert s[id := Blank()] - {id} == s;
      case DropSpace(id) =>
      case ChangeIndex(id, iid, x) => IndexChangeRestored(s, t, r);
      case CreateFk(fk) => CreateFkRestored(s, t, r, fk);
      case ReplaceFk(fk) => ReplaceFkRestored(s, t, r, fk);
      case DropFk(fk) => DropFkRestored(s, t, r, fk);
      case CreateCk(id, name) => CkRestored(s, t, r);
      case DropCk(id, name) => CkRestored(s, t, r);
    }
  }

  // ---------------------------------------------------------------------------
  // Runs
  // ---------------------------------------------------------------------------

  /** The schema and the records of changes that are not committed yet, oldest first. */
  datatype Config = Config(s: Schema, pending: seq<Record>)

  datatype Event = Change(r: Record) | RollbackLast | CommitFirst

  ghost predicate Next(c: Config, d: Config, e: Event)
  {
    match e
    case Change(r) => Inv(c.s) && IsRecord(c.s, r) && d == Config(Apply(c.s, r.op, r.replaced), c.pending + [r])
    case RollbackLast =>
      && c.pending != [] && CanUndo(c.s, c.pending[|c.pending| - 1])
      && d == Config(Undo(c.s, c.pending[|c.pending| - 1]), c.pending[..|c.pending| - 1])
    case CommitFirst => c.pending != [] && d == Config(c.s, c.pending[1..])
  }

  /** The schemas before the pending changes: each change, applied to its schema, gives the next one, masks aside. */
  ghost predicate Chain(before: seq<Schema>, c: Config)
  {
    && |before| == |c.pending|
    && forall k: nat | k < |before| :: ChainLink(before, c, k)
  }

  ghost predicate ChainLink(before: seq<Schema>, c: Config, k: nat)
    requires |before| == |c.pending|
  {
    && k < |before| && Inv(before[k]) && IsRecord(before[k], c.pending[k])
    && SameButMasks(if k + 1 < |before| then before[k + 1] else c.s, Apply(before[k], c.pending[k].op, c.pending[k].replaced))
  }

  lemma ChangeChain(c: Config, d: Config, r: Record, before: seq<Schema>)
    requires Chain(before, c) && Inv(c.s) && Next(c, d, Change(r))
    ensures Inv(d.s) && Chain(before + [c.s], d)
    ensures MasksExact(c.s) && KeepsParent(r) ==> MasksExact(d.s)
  {
    ApplyKeeps(c.s, r);
    ApplyMasks(c.s, r);
    forall k: nat | k < |before + [c.s]| ensures ChainLink(before + [c.s], d, k) {
      if k < |before| { assert ChainLink(before, c, k); }
    }
  }

  lemma RollbackMasks(s: Schema, t: Schema, r: Record)
    requires Inv(s) && Inv(t) && IsRecord(s, r) && CanUndo(t, r)
    ensures MasksCover(Undo(t, r)) && (MasksExact(s) && MasksExact(t) && KeepsParent(r) ==> MasksExact(Undo(t, r)))
  {
    if r.op.ReplaceFk? { ReplaceFkSound(s, r.replaced, r.op.fk); }
    UndoMasks(t, r);
  }

  /** Undoing the change that has led from `s` to `t` leads back to `s`, masks aside, and keeps the invariant. */
  lemma UndoKeeps(s: Schema, t: Schema, r: Record)
    requires Inv(s) && Inv(t) && IsRecord(s, r) && SameButMasks(t, Apply(s, r.op, r.replaced))
    ensures CanUndo(t, r) && Inv(Undo(t, r)) && SameButMasks(Undo(t, r), s)
    ensures MasksExact(s) && MasksExact(t) && KeepsParent(r) ==> MasksExact(Undo(t, r))
  {
    UndoRestores(s, t, r);
    assert Sound(Undo(t, r)) by {
      SameTrans(Undo(t, r), s, s);
      SoundIgnoresMasks(s, Undo(t, r));
    }
    RollbackMasks(s, t, r);
  }

  lemma RollbackChain(c: Config, d: Config, before: seq<Schema>)
    requires Chain(before, c) && Inv(c.s) && Next(c, d, RollbackLast)
    ensures Inv(d.s) && Chain(before[..|before| - 1], d) && SameButMasks(d.s, before[|before| - 1])
    ensures MasksExact(c.s) && MasksExact(before[|before| - 1]) && KeepsParent(c.pending[|c.pending| - 1]) ==> MasksExact(d.s)
  {
    var n := |before| - 1;
    assert ChainLink(before, c, n);
    UndoKeeps(before[n], c.s, c.pending[n]);
    ShorterChain(c, d, before);
  }

  /** What is left of the chain when the last change is undone. */
  lemma ShorterChain(c: Config, d: Config, before: seq<Schema>)
    requires Chain(before, c) && Inv(c.s) && Next(c, d, RollbackLast) && SameButMasks(d.s, before[|before| - 1])
    ensures Chain(before[..|before| - 1], d)
  {
    var n := |before| - 1;
    forall k: nat | k < n ensures ChainLink(before[..n], d, k) {
      assert ChainLink(before, c, k);
      if k + 1 == n { SameTrans(d.s, before[n], Apply(before[k], c.pending[k].op, c.pending[k].replaced)); }
    }
  }

  ghost predicate IsRun(run: seq<Config>, events: seq<Event>)
  {
    && |run| == |events| + 1 && Inv(run[0].s) && run[0].pending == []
    && forall k: nat | k < |events| :: Next(run[k], run[k + 1], events[k])
  }

  /** All replacements of the run keep the parent. */
  ghost predicate ParentsKept(events: seq<Event>)
  {
    forall k: nat | k < |events| && events[k].Change? :: KeepsParent(events[k].r)
  }

  lemma {:induction false} RunChain(run: seq<Config>, events: seq<Event>, k: nat) returns (before: seq<Schema>)
    requires IsRun(run, events) && k < |run|
    ensures Inv(run[k].s) && Chain(before, run[k])
    ensures MasksExact(run[0].s) && ParentsKept(events) ==>
              MasksExact(run[k].s) && (forall i | 0 <= i < |before| :: MasksExact(before[i])) && forall i | 0 <= i < |before| :: KeepsParent(run[k].pending[i])
  {
    if k == 0 {
      before := [];
    } else {
      before := RunChain(run, events, k - 1);
      assert Next(run[k - 1], run[k], events[k - 1]);
      match events[k - 1] {
        case Change(r) =>
          ChangeChain(run[k - 1], run[k], r, before);
          before := before + [run[k - 1].s];
        case RollbackLast =>
          RollbackChain(run[k - 1], run[k], before);
          before := before[..|before| - 1];
        case CommitFirst =>
          forall i: nat | i < |before| - 1 ensures ChainLink(before[1..], run[k], i) { assert ChainLink(before, run[k - 1], i + 1); }
          before := before[1..];
      }
    }
  }

  /**
   Through every run of index, foreign key, check and space changes, with commits and
   last-first rollbacks, names are those of the live constraints, each space's mask covers
   the linked fields, and the last change can be rolled back; if replacements keep their
   parents, masks are exact throughout.
   */
  lemma ConstraintsThroughRuns(run: seq<Config>, events: seq<Event>, k: nat, id: nat)
    requires IsRun(run, events) && k < |run| && id in run[k].s
    ensures NamesOK(run[k].s[id]) && ListsOK(run[k].s, id) && Covers(run[k].s[id].mask, Linked(run[k].s[id]))
    ensures MasksExact(run[0].s) && ParentsKept(events) ==> Exact(run[k].s[id].mask, Linked(run[k].s[id]))
    ensures run[k].pending != [] ==> CanUndo(run[k].s, run[k].pending[|run[k].pending| - 1])
  {
    var before := RunChain(run, events, k);
    assert SpaceOK(run[k].s, id);
    if run[k].pending != [] {
      var n := |before| - 1;
      assert ChainLink(before, run[k], n);
      UndoRestores(before[n], run[k].s, run[k].pending[n]);
    }
  }
}
