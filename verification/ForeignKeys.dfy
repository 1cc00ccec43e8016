/**
 The foreign key triggers: the loops that build masks and check links, and the changes of
 the cached spaces that creating, replacing and dropping a foreign key make, with their
 rollbacks.
 */
module ForeignKeys {
  import opened Options
  import opened ColumnMask
  import opened Constraints
  import opened ConstraintEffects

  // ---------------------------------------------------------------------------
  // Masks
  // ---------------------------------------------------------------------------

  function FieldOf(l: Link, parent: bool): nat
  {
    if parent then l.parentField else l.childField
  }

  ghost function FieldsOf(links: seq<Link>, parent: bool): iset<nat>
  {
    iset f | InLinks(links, parent, f)
  }

  ghost predicate InLinks(links: seq<Link>, parent: bool, f: nat)
  {
    exists i :: 0 <= i < |links| && FieldOf(links[i], parent) == f
  }

  lemma FieldsOfFk(fk: Fk)
    ensures FieldsOf(fk.links, true) == ParentFields(fk) && FieldsOf(fk.links, false) == ChildFields(fk)
  {
    forall f: nat ensures (InLinks(fk.links, true, f) <==> ParentField(fk, f)) && (InLinks(fk.links, false, f) <==> ChildField(fk, f)) {
      if ParentField(fk, f) {
        var i :| 0 <= i < |fk.links| && fk.links[i].parentField == f;
        assert FieldOf(fk.links[i], true) == f;
      }
      if ChildField(fk, f) {
        var i :| 0 <= i < |fk.links| && fk.links[i].childField == f;
        assert FieldOf(fk.links[i], false) == f;
      }
    }
  }

  lemma FieldsOfMore(links: seq<Link>, parent: bool, i: nat)
    requires i < |links|
    ensures FieldsOf(links[..i + 1], parent) == FieldsOf(links[..i], parent) + iset{FieldOf(links[i], parent)}
  {
    forall f: nat ensures InLinks(links[..i + 1], parent, f) <==> InLinks(links[..i], parent, f) || f == FieldOf(links[i], parent) {
      if InLinks(links[..i], parent, f) {
        var k :| 0 <= k < i && FieldOf(links[..i][k], parent) == f;
        assert links[..i + 1][k] == links[..i][k];
      }
      if InLinks(links[..i + 1], parent, f) {
        var k :| 0 <= k <= i && FieldOf(links[..i + 1][k], parent) == f;
        if k < i { assert links[..i][k] == links[..i + 1][k]; }
      }
      assert links[..i + 1][i] == links[i];
    }
  }

  lemma OrMore(mask: Mask, fields: iset<nat>, f: nat)
    ensures Or(Or(mask, MaskOf(fields)), One(Bit(f))) == Or(mask, MaskOf(fields + iset{f}))
  {
    OneMore(MaskOf(fields), fields, f);
    MaskIsUnique(Or(MaskOf(fields), One(Bit(f))), MaskOf(fields + iset{f}), fields + iset{f});
  }

  /** `fk_constraint_set_mask`: add the bits of one side of a foreign key. */
  method FkSetMask(mask: Mask, fk: Fk, parent: bool) returns (mask': Mask)
    ensures mask' == Or(mask, MaskOf(if parent then ParentFields(fk) else ChildFields(fk)))
  {
    mask' := mask;
    var i := 0;
    NoBits(mask, fk.links[..0], parent);
    while i < |fk.links|
      invariant 0 <= i <= |fk.links| && mask' == Or(mask, MaskOf(FieldsOf(fk.links[..i], parent)))
    {
      FieldsOfMore(fk.links, parent, i);
      OrMore(mask, FieldsOf(fk.links[..i], parent), FieldOf(fk.links[i], parent));
      mask' := SetFieldno(mask', FieldOf(fk.links[i], parent));
      i := i + 1;
    }
    assert fk.links[..i] == fk.links;
    FieldsOfFk(fk);
  }

  lemma NoBits(mask: Mask, links: seq<Link>, parent: bool)
    requires links == []
    ensures Or(mask, MaskOf(FieldsOf(links, parent))) == mask
  {
    assert forall f: nat :: !InLinks(links, parent, f);
  }

  ghost predicate InFks(fks: set<Fk>, parent: bool, f: nat)
  {
    exists fk :: fk in fks && (if parent then ParentField(fk, f) else ChildField(fk, f))
  }

  ghost function FieldsOfFks(fks: set<Fk>, parent: bool): iset<nat>
  {
    iset f | InFks(fks, parent, f)
  }

  lemma FksMore(fks: set<Fk>, parent: bool, fk: Fk)
    ensures FieldsOfFks(fks + {fk}, parent) == FieldsOfFks(fks, parent) + if parent then ParentFields(fk) else ChildFields(fk)
  {
    forall f: nat ensures InFks(fks + {fk}, parent, f) <==> InFks(fks, parent, f) || (if parent then ParentField(fk, f) else ChildField(fk, f)) {
      if InFks(fks, parent, f) {
        var x :| x in fks && (if parent then ParentField(x, f) else ChildField(x, f));
        assert x in fks + {fk};
      }
      assert fk in fks + {fk};
    }
  }

  /** Add the bits of all foreign keys of a list. */
  method FksSetMask(mask: Mask, fks: set<Fk>, parent: bool) returns (mask': Mask)
    ensures mask' == Or(mask, MaskOf(FieldsOfFks(fks, parent)))
  {
    mask' := mask;
    var todo, done := fks, {};
    assert forall f: nat :: !InFks({}, parent, f);
    assert MaskOf(FieldsOfFks({}, parent)) == Zero();
    while todo != {}
      invariant todo + done == fks && mask' == Or(mask, MaskOf(FieldsOfFks(done, parent)))
      decreases todo
    {
      var fk :| fk in todo;
      FksMore(done, parent, fk);
      var fields := if parent then ParentFields(fk) else ChildFields(fk);
      BothExact(MaskOf(FieldsOfFks(done, parent)), FieldsOfFks(done, parent), MaskOf(fields), fields);
      MaskIsUnique(Or(MaskOf(FieldsOfFks(done, parent)), MaskOf(fields)), MaskOf(FieldsOfFks(done + {fk}, parent)), FieldsOfFks(done + {fk}, parent));
      mask' := FkSetMask(mask', fk, parent);
      todo, done := todo - {fk}, done + {fk};
    }
    assert done == fks;
  }

  /** `space_reset_fk_constraint_mask`: build the mask anew. */
  method ResetMask(sp: Space) returns (mask: Mask)
    ensures mask == MaskOf(Linked(sp))
  {
    mask := FksSetMask(Zero(), sp.childFk, false);
    mask := FksSetMask(mask, sp.parentFk, true);
    var c, p := FieldsOfFks(sp.childFk, false), FieldsOfFks(sp.parentFk, true);
    assert Linked(sp) == c + p;
    assert Or(Zero(), MaskOf(c)) == MaskOf(c);
    BothExact(MaskOf(c), c, MaskOf(p), p);
    MaskIsUnique(mask, MaskOf(Linked(sp)), Linked(sp));
  }

  // ---------------------------------------------------------------------------
  // Duplicate links
  // ---------------------------------------------------------------------------

  /** Two links have the same parent field. */
  ghost predicate HasDuplicate(links: seq<Link>)
  {
    exists i, j :: 0 <= i < j < |links| && links[i].parentField == links[j].parentField
  }

  ghost predicate HasSmallDuplicate(links: seq<Link>)
  {
    exists i, j :: 0 <= i < j < |links| && links[i].parentField == links[j].parentField && links[i].parentField < 32
  }

  ghost predicate HasLarge(links: seq<Link>)
  {
    exists i :: 0 <= i < |links| && links[i].parentField > 63
  }

  /** One shifted left, as it fits into 32 bits: nothing is left of it from bit 32 on. */
  function Truncated(k: nat): Mask
  {
    if k < 32 then One(k) else Zero()
  }

  method SlowCheck(links: seq<Link>) returns (ok: bool)
    ensures ok <==> !HasDuplicate(links)
  {
    var i := 0;
    while i < |links|
      invariant 0 <= i <= |links| && forall k, l | 0 <= k < i && k < l < |links| :: links[k].parentField != links[l].parentField
    {
      var j := i + 1;
      while j < |links|
        invariant i < j <= |links| && forall l | i < l < j :: links[i].parentField != links[l].parentField
      {
        if links[i].parentField == links[j].parentField { return false; }
        j := j + 1;
      }
      i := i + 1;
    }
    return true;
  }

  ghost predicate UsedBefore(links: seq<Link>, i: nat, f: nat)
  {
    exists k :: 0 <= k < i && k < |links| && links[k].parentField == f
  }

  /** The mask has the bits of the fields below 32 among the first `i` links. */
  ghost predicate Seen(mask: Mask, links: seq<Link>, i: nat)
  {
    forall b: nat | b < BITS :: mask[b] <==> b < 32 && UsedBefore(links, i, b)
  }

  lemma SeenMore(mask: Mask, links: seq<Link>, i: nat)
    requires Seen(mask, links, i) && i < |links|
    ensures Seen(Or(mask, Truncated(links[i].parentField)), links, i + 1)
  {
    forall b: nat ensures UsedBefore(links, i + 1, b) <==> UsedBefore(links, i, b) || b == links[i].parentField {
      if UsedBefore(links, i, b) {
        var k :| 0 <= k < i && k < |links| && links[k].parentField == b;
        assert k < i + 1;
      }
    }
  }

  /**
   `fk_constraint_check_dup_links`.  The fast check keeps a bit in 32-bit arithmetic, so
   it finds duplicates among fields below 32 only; the slow check finds them all.  So the
   answer is right exactly if a duplicate, when there is one, is below 32 or comes with a
   field above 63.
   */
  method CheckDupLinks(links: seq<Link>) returns (ok: bool)
    ensures ok <==> !(HasSmallDuplicate(links) || (HasLarge(links) && HasDuplicate(links)))
    ensures (ok <==> !HasDuplicate(links)) <==> (HasDuplicate(links) ==> HasSmallDuplicate(links) || HasLarge(links))
  {
    var fieldMask := Zero();
    var i := 0;
    while i < |links|
      invariant 0 <= i <= |links|
      invariant forall k | 0 <= k < i :: links[k].parentField <= 63
      invariant Seen(fieldMask, links, i)
      invariant forall k, l | 0 <= k < l < i && links[k].parentField < 32 :: links[k].parentField != links[l].parentField
    {
      var parentField := links[i].parentField;
      if parentField > 63 {
        ok := SlowCheck(links);
        return;
      }
      var bit := Truncated(parentField);
      if exists b | 0 <= b < BITS :: fieldMask[b] && bit[b] {
        var b :| 0 <= b < BITS && fieldMask[b] && bit[b];
        assert UsedBefore(links, i, b);
        assert HasSmallDuplicate(links);
        return false;
      }
      if parentField < 32 { assert !fieldMask[parentField] && !UsedBefore(links, i, parentField); }
      SeenMore(fieldMask, links, i);
      fieldMask := Or(fieldMask, bit);
      i := i + 1;
    }
    return true;
  }

  /** Two links to field 40, which the fast check does not see. */
  lemma DuplicateCanBeMissed(links: seq<Link>)
    requires links == [Link(0, 40), Link(1, 40)]
    ensures HasDuplicate(links) && !HasSmallDuplicate(links) && !HasLarge(links)
  {
    assert links[0].parentField == links[1].parentField;
  }

  // ---------------------------------------------------------------------------
  // The triggers
  // ---------------------------------------------------------------------------

  class Cache {
    var spaces: Schema
    var pending: seq<Record>

    function View(): Config
      reads this
    {
      Config(spaces, pending)
    }

    constructor ()
      ensures spaces == map[] && pending == [] && Inv(spaces)
    {
      spaces, pending := map[], [];
    }

    /** Rebuild the mask of a cached space. */
    method ResetSpace(id: nat)
      requires id in spaces
      modifies this`spaces
      ensures spaces == Reset(old(spaces), id)
    {
      var mask := ResetMask(spaces[id]);
      spaces := spaces[id := spaces[id].(mask := mask)];
    }

    /** Put a foreign key into both lists. */
    method ListFk(fk: Fk)
      requires fk.child in spaces && fk.parent in spaces
      modifies this`spaces
      ensures spaces == AddFk(old(spaces), fk)
    {
      spaces := spaces[fk.child := spaces[fk.child].(childFk := spaces[fk.child].childFk + {fk})];
      spaces := spaces[fk.parent := spaces[fk.parent].(parentFk := spaces[fk.parent].parentFk + {fk})];
    }

    /** Take a foreign key out of both lists. */
    method UnlistFk(fk: Fk)
      requires fk.child in spaces && fk.parent in spaces
      modifies this`spaces
      ensures spaces == RemoveFk(old(spaces), fk)
    {
      spaces := spaces[fk.child := spaces[fk.child].(childFk := spaces[fk.child].childFk - {fk})];
      spaces := spaces[fk.parent := spaces[fk.parent].(parentFk := spaces[fk.parent].parentFk - {fk})];
    }

    method AddFkBits(fk: Fk)
      requires fk.child in spaces && fk.parent in spaces
      modifies this`spaces
      ensures spaces == SetMasks(old(spaces), fk)
    {
      var mask := FkSetMask(spaces[fk.parent].mask, fk, true);
      spaces := spaces[fk.parent := spaces[fk.parent].(mask := mask)];
      mask := FkSetMask(spaces[fk.child].mask, fk, false);
      spaces := spaces[fk.child := spaces[fk.child].(mask := mask)];
    }

    /** A foreign key is created, if its name is free. */
    method OnCreateFk(fk: Fk) returns (ok: bool)
      requires Inv(spaces) && fk.child in spaces && fk.parent in spaces && fk.index in spaces[fk.parent].index
      modifies this
      ensures ok <==> Allowed(old(spaces), CreateFk(fk))
      ensures ok <==> fk.name !in old(spaces)[fk.child].ids
      ensures if ok then Next(old(View()), View(), Change(Record(CreateFk(fk), fk, None, Blank()))) else View() == old(View())
      ensures ok ==> HasEffect(old(spaces), spaces, Record(CreateFk(fk), fk, None, Blank()))
    {
      ghost var r := Record(CreateFk(fk), fk, None, Blank());
      if fk.name in spaces[fk.child].ids { return false; }
      ApplyEffect(spaces, r);
      pending := pending + [Record(CreateFk(fk), fk, None, Blank())];
      spaces := TakeName(spaces, fk.child, fk.name);
      ListFk(fk);
      AddFkBits(fk);
      return true;
    }

    /** A foreign key replaces the one of the same name. */
    method OnReplaceFk(oldFk: Fk, fk: Fk)
      requires Inv(spaces) && Allowed(spaces, ReplaceFk(fk)) && Replaces(spaces, oldFk, fk)
      modifies this
      ensures Next(old(View()), View(), Change(Record(ReplaceFk(fk), oldFk, None, Blank())))
      ensures HasEffect(old(spaces), spaces, Record(ReplaceFk(fk), oldFk, None, Blank()))
    {
      ApplyEffect(spaces, Record(ReplaceFk(fk), oldFk, None, Blank()));
      assert SpaceOK(spaces, fk.child) && FkOK(spaces, oldFk);
      pending := pending + [Record(ReplaceFk(fk), oldFk, None, Blank())];
      UnlistFk(oldFk);
      ListFk(fk);
      ResetSpace(fk.child);
      ResetSpace(fk.parent);
    }

    /** A foreign key is dropped. */
    method OnDropFk(fk: Fk)
      requires Inv(spaces) && Allowed(spaces, DropFk(fk))
      modifies this
      ensures Next(old(View()), View(), Change(Record(DropFk(fk), fk, None, Blank())))
      ensures HasEffect(old(spaces), spaces, Record(DropFk(fk), fk, None, Blank()))
    {
      ApplyEffect(spaces, Record(DropFk(fk), fk, None, Blank()));
      assert SpaceOK(spaces, fk.child) && FkOK(spaces, fk);
      pending := pending + [Record(DropFk(fk), fk, None, Blank())];
      UnlistFk(fk);
      spaces := FreeName(spaces, fk.child, fk.name);
      ResetSpace(fk.child);
      ResetSpace(fk.parent);
    }

    /** Roll back the last change, if it is one of a foreign key. */
    method OnRollbackFk()
      requires pending != [] && CanUndo(spaces, pending[|pending| - 1])
      requires var op := pending[|pending| - 1].op; op.CreateFk? || op.ReplaceFk? || op.DropFk?
      modifies this
      ensures Next(old(View()), View(), RollbackLast)
    {
      var r := pending[|pending| - 1];
      match r.op {
        case CreateFk(fk) =>
          UnlistFk(fk);
          spaces := FreeName(spaces, fk.child, fk.name);
          ResetSpace(fk.parent);
          ResetSpace(fk.child);
        case ReplaceFk(fk) =>
          UnlistFk(fk);
          ListFk(r.replaced);
          ResetSpace(r.replaced.parent);
          ResetSpace(r.replaced.child);
        case DropFk(fk) =>
          spaces := TakeName(spaces, fk.child, fk.name);
          ListFk(fk);
          AddFkBits(fk);
      }
      pending := pending[..|pending| - 1];
    }
  }
}
