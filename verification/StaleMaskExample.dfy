/** A run after which the foreign key mask of a space has a bit that no foreign key accounts for. */
module StaleMaskExample {
  import opened Options
  import opened ColumnMask
  import opened Constraints

  const CHILD: nat := 1
  const OLD_PARENT: nat := 2
  const NEW_PARENT: nat := 3

  const BEFORE: Fk := Fk("fk", CHILD, OLD_PARENT, [Link(0, 0)], 0)
  const AFTER: Fk := Fk("fk", CHILD, NEW_PARENT, [Link(0, 0)], 0)

  /** A run from the empty schema in which all masks have been exact so far. */
  ghost predicate Exactly(run: seq<Config>, events: seq<Event>, s: Schema)
  {
    IsRun(run, events) && run[0].s == map[] && run[|run| - 1].s == s && Inv(s) && MasksExact(s)
  }

  lemma Change(run: seq<Config>, events: seq<Event>, s: Schema, r: Record) returns (run': seq<Config>, events': seq<Event>)
    requires Exactly(run, events, s) && IsRecord(s, r) && KeepsParent(r)
    ensures Exactly(run', events', Apply(s, r.op, r.replaced))
  {
    var c := run[|run| - 1];
    var d := Config(Apply(s, r.op, r.replaced), c.pending + [r]);
    run', events' := run + [d], events + [Event.Change(r)];
    ApplyKeeps(s, r);
    ApplyMasks(s, r);
    forall k: nat | k < |events'| ensures Next(run'[k], run'[k + 1], events'[k]) {
      if k < |events| { assert Next(run[k], run[k + 1], events[k]); }
    }
  }

  /** Three spaces. */
  lemma Spaces() returns (run: seq<Config>, events: seq<Event>, s: Schema)
    ensures Exactly(run, events, s) && s == map[CHILD := Blank(), OLD_PARENT := Blank(), NEW_PARENT := Blank()]
  {
    run, events, s := [Config(map[], [])], [], map[];
    assert Exactly(run, events, s);
    run, events := Change(run, events, s, Record(CreateSpace(CHILD), BEFORE, None, Blank()));
    s := map[CHILD := Blank()];
    run, events := Change(run, events, s, Record(CreateSpace(OLD_PARENT), BEFORE, None, Blank()));
    s := map[CHILD := Blank(), OLD_PARENT := Blank()];
    run, events := Change(run, events, s, Record(CreateSpace(NEW_PARENT), BEFORE, None, Blank()));
    s := map[CHILD := Blank(), OLD_PARENT := Blank(), NEW_PARENT := Blank()];
  }

  /** A parent with a primary key. */
  function Parent(): Space
  {
    Blank().(index := map[0 := Index("pk", true)], ids := {"pk"})
  }

  lemma Parents() returns (run: seq<Config>, events: seq<Event>, s: Schema)
    ensures Exactly(run, events, s) && s == map[CHILD := Blank(), OLD_PARENT := Parent(), NEW_PARENT := Parent()]
  {
    run, events, s := Spaces();
    assert SetIndex(Blank(), 0, Some(Index("pk", true))) == Parent();
    run, events := Change(run, events, s, Record(ChangeIndex(OLD_PARENT, 0, Some(Index("pk", true))), BEFORE, None, Blank()));
    s := s[OLD_PARENT := Parent()];
    run, events := Change(run, events, s, Record(ChangeIndex(NEW_PARENT, 0, Some(Index("pk", true))), BEFORE, None, Blank()));
    s := s[NEW_PARENT := Parent()];
  }

  /**
   Create a foreign key and replace it by one with another parent.  The mask of the old
   parent was exact before, and is not any more.
   */
  lemma MaskGoesStale() returns (run: seq<Config>, events: seq<Event>, s: Schema, r: Record)
    ensures Exactly(run, events, s) && IsRecord(s, r) && r.op == ReplaceFk(AFTER)
    ensures OLD_PARENT in Apply(s, r.op, r.replaced) && !MasksExact(Apply(s, r.op, r.replaced))
  {
    run, events, s := WithKey();
    r := Record(ReplaceFk(AFTER), BEFORE, None, Blank());
    assert Replaces(s, BEFORE, AFTER);
    StaleMask(s, r);
    var p := Apply(s, r.op, r.replaced)[OLD_PARENT];
    assert p.childFk == {} && p.parentFk == {};
    BitIsStale(p);
  }

  /** The foreign key is created. */
  lemma WithKey() returns (run: seq<Config>, events: seq<Event>, s: Schema)
    ensures Exactly(run, events, s) && s.Keys == {CHILD, OLD_PARENT, NEW_PARENT} && 0 in s[NEW_PARENT].index
    ensures s[CHILD].childFk == {BEFORE} && s[CHILD].parentFk == {} && s[OLD_PARENT].parentFk == {BEFORE} && s[OLD_PARENT].childFk == {}
  {
    run, events, s := Parents();
    var made := Record(CreateFk(BEFORE), BEFORE, None, Blank());
    run, events := Change(run, events, s, made);
    s := Apply(s, made.op, made.replaced);
  }

  /** A space without foreign keys has no use for the bit of the old one. */
  lemma BitIsStale(p: Space)
    requires p.childFk == {} && p.parentFk == {}
    ensures HasBit(ParentFields(BEFORE), 0) && !HasBit(Linked(p), 0)
  {
    assert Bit(0) == 0 && BEFORE.links[0].parentField == 0 && ParentField(BEFORE, 0) && 0 in ParentFields(BEFORE);
  }
}
