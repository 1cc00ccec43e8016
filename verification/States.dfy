/** Parser actions as the generator keeps them: one list per state. */
module Actions {
  /** The kind of an action, with the new state of a shift or the rule of a reduction. */
  datatype Kind =
    | SHIFT(stp: nat)
    | ACCEPT
    | REDUCE(rp: nat)
    | ERROR
    | SSCONFLICT
    | SRCONFLICT
    | RRCONFLICT
    | SH_RESOLVED
    | RD_RESOLVED
    | NOT_USED
    | SHIFTREDUCE(rp: nat)

  datatype Action = Action(sp: nat, kind: Kind)
}

/**
 `FindStates`: the mutually recursive `getstate` and `buildshifts`.  The table they
 leave holds exactly the least collection of bases that contains the start basis and
 is closed under goto, with one state per basis.
 */
module States {
  import opened Options
  import opened FiniteSets
  import opened Grammars
  import opened Items
  import opened Configlist
  import opened Actions

  datatype State = State(bp: set<Item>, cfp: seq<Item>, fws: map<Item, set<nat>>, fplp: set<(Item, Item)>, ap: seq<Action>)

  /** A configuration of a particular state. */
  datatype Config = Config(st: nat, item: Item)

  /** The start configurations begin with `$` in their follow set, all other basis configurations with nothing. */
  function SeedOf(start: bool, b: set<Item>): map<Item, set<nat>>
  {
    map it | it in b :: if start then {0} else {}
  }

  ghost predicate StateOK(g: Grammar, lam: seq<bool>, fst: seq<set<nat>>, st: State, start: bool)
  {
    && ItemSet(g, st.bp) && NoDup(st.cfp)
    && ItemsOf(st.cfp) == ClosureOf(g, st.bp)
    && st.fws.Keys == ItemsOf(st.cfp)
    && SeededAll(g, lam, fst, SeedOf(start, st.bp), st.fws, ItemsOf(st.cfp))
    && Linked(g, lam, st.fplp, ItemsOf(st.cfp))
  }

  /** `a` is the shift on its symbol, to the state whose basis is the goto kernel. */
  ghost predicate ShiftOK(g: Grammar, states: seq<State>, st: State, a: Action)
  {
    && a.kind.SHIFT? && a.kind.stp < |states|
    && Kernel(g, ClosureOf(g, st.bp), a.sp) == states[a.kind.stp].bp != {}
  }

  ghost predicate ShiftsOK(g: Grammar, states: seq<State>, st: State)
  {
    && (forall k | 0 <= k < |st.ap| :: ShiftOK(g, states, st, st.ap[k]))
    && (forall j, k | 0 <= j < k < |st.ap| :: st.ap[j].sp != st.ap[k].sp)
  }

  ghost predicate HasShift(st: State, x: nat)
  {
    exists k :: 0 <= k < |st.ap| && st.ap[k].sp == x
  }

  /** Every symbol that can follow the dot has its shift. */
  ghost predicate Built(g: Grammar, st: State)
  {
    forall x: nat | Kernel(g, ClosureOf(g, st.bp), x) != {} :: HasShift(st, x)
  }

  ghost predicate Distinct(states: seq<State>)
  {
    forall s, t | 0 <= s < t < |states| :: states[s].bp != states[t].bp
  }

  /** Basis `b` is in every goto-closed collection that has the start basis. */
  ghost predicate Needed(g: Grammar, b: set<Item>)
  {
    forall bases | StartBasis(g) in bases && GotoClosed(g, bases) :: b in bases
  }

  ghost predicate EntryOK(g: Grammar, lam: seq<bool>, fst: seq<set<nat>>, states: seq<State>, s: nat)
  {
    && s < |states|
    && StateOK(g, lam, fst, states[s], s == 0)
    && ShiftsOK(g, states, states[s])
    && Needed(g, states[s].bp)
  }

  ghost predicate TableOK(g: Grammar, lam: seq<bool>, fst: seq<set<nat>>, states: seq<State>)
  {
    && (forall s: nat | s < |states| :: EntryOK(g, lam, fst, states, s))
    && Distinct(states)
  }

  /** Configuration `d` of one state was moved over a symbol into configuration `c` of the next. */
  ghost predicate IsBackLink(g: Grammar, states: seq<State>, c: Config, d: Config)
  {
    && d.st < |states| && d.item in states[d.st].cfp && c.item == Advance(d.item)
    && exists k :: 0 <= k < |states[d.st].ap| && states[d.st].ap[k].kind == SHIFT(c.st) && HasNext(g, d.item, states[d.st].ap[k].sp)
  }

  ghost predicate BackOK(g: Grammar, states: seq<State>, back: set<(Config, Config)>)
  {
    forall c, d :: (c, d) in back <==> IsBackLink(g, states, c, d)
  }

  ghost function Bases(states: seq<State>): set<set<Item>>
  {
    set s | 0 <= s < |states| :: states[s].bp
  }

  ghost function BasesLeft(g: Grammar, states: seq<State>): set<set<Item>>
  {
    (set b: set<Item> | b <= AllItems(g)) - Bases(states)
  }

  /** How many more states can be entered: what the recursion counts down. */
  ghost function Room(g: Grammar, states: seq<State>): nat
  {
    |BasesLeft(g, states)|
  }

  ghost predicate SameExcept(a: seq<State>, b: seq<State>, stp: nat)
  {
    |a| <= |b| && forall s | 0 <= s < |a| && s != stp :: b[s] == a[s]
  }

  lemma UpdateKeeps(a: seq<State>, b: seq<State>, stp: nat, v: State)
    requires |a| <= |b| && stp < |b| && forall s | 0 <= s < |a| :: b[s] == a[s]
    ensures SameExcept(a, b[stp := v], stp)
  {
  }

  lemma NeededKernel(g: Grammar, b: set<Item>, x: nat)
    requires Needed(g, b) && Kernel(g, ClosureOf(g, b), x) != {}
    ensures Needed(g, Kernel(g, ClosureOf(g, b), x))
  {
    forall bases | StartBasis(g) in bases && GotoClosed(g, bases) ensures Kernel(g, ClosureOf(g, b), x) in bases {
      assert b in bases;
    }
  }

  /** The whole table is built: then its bases are exactly the least goto-closed collection. */
  lemma BuiltTableIsLeast(g: Grammar, lam: seq<bool>, fst: seq<set<nat>>, states: seq<State>)
    requires TableOK(g, lam, fst, states) && states != [] && states[0].bp == StartBasis(g)
    requires forall s | 0 <= s < |states| :: Built(g, states[s])
    ensures StartBasis(g) in Bases(states) && GotoClosed(g, Bases(states))
    ensures forall bases | StartBasis(g) in bases && GotoClosed(g, bases) :: Bases(states) <= bases
  {
    forall b, x: nat | b in Bases(states) && Kernel(g, ClosureOf(g, b), x) != {} ensures Kernel(g, ClosureOf(g, b), x) in Bases(states) {
      var s :| 0 <= s < |states| && states[s].bp == b;
      assert Built(g, states[s]) && EntryOK(g, lam, fst, states, s);
      var k :| 0 <= k < |states[s].ap| && states[s].ap[k].sp == x;
      assert ShiftOK(g, states, states[s], states[s].ap[k]);
    }
    forall bases | StartBasis(g) in bases && GotoClosed(g, bases) ensures Bases(states) <= bases {
      forall b | b in Bases(states) ensures b in bases {
        var s :| 0 <= s < |states| && states[s].bp == b;
        assert EntryOK(g, lam, fst, states, s);
      }
    }
  }

  lemma BasisFits(g: Grammar, b: set<Item>)
    requires ItemSet(g, b)
    ensures b <= AllItems(g)
  {
    forall it | it in b ensures it in AllItems(g) { AllItemsHasAll(g, it); }
  }

  /** Appending a fresh state keeps the table. */
  lemma TableAppend(g: Grammar, lam: seq<bool>, fst: seq<set<nat>>, states: seq<State>, st: State)
    requires TableOK(g, lam, fst, states) && StateOK(g, lam, fst, st, states == []) && Needed(g, st.bp) && st.ap == []
    requires forall s | 0 <= s < |states| :: states[s].bp != st.bp
    ensures TableOK(g, lam, fst, states + [st])
    ensures Room(g, states + [st]) < Room(g, states)
  {
    var states' := states + [st];
    forall s: nat | s < |states'| ensures EntryOK(g, lam, fst, states', s) {
      if s < |states| {
        assert EntryOK(g, lam, fst, states, s);
        forall k | 0 <= k < |states'[s].ap| ensures ShiftOK(g, states', states'[s], states'[s].ap[k]) {
          assert ShiftOK(g, states, states[s], states[s].ap[k]);
        }
      }
    }
    BasisFits(g, st.bp);
    assert st.bp !in Bases(states);
    assert states'[|states|].bp in Bases(states');
    forall b | b in Bases(states) ensures b in Bases(states') {
      var s :| 0 <= s < |states| && states[s].bp == b;
      assert states'[s].bp == b;
    }
    assert st.bp in BasesLeft(g, states) && st.bp !in BasesLeft(g, states');
    SmallerSet(BasesLeft(g, states'), BasesLeft(g, states));
  }

  lemma BackAppend(g: Grammar, states: seq<State>, st: State, back: set<(Config, Config)>)
    requires BackOK(g, states, back) && st.ap == []
    ensures BackOK(g, states + [st], back)
  {
    forall c, d ensures IsBackLink(g, states, c, d) <==> IsBackLink(g, states + [st], c, d) {
    }
  }

  /** Recording a shift of state `stp` keeps the table. */
  lemma TableShift(g: Grammar, lam: seq<bool>, fst: seq<set<nat>>, states: seq<State>, stp: nat, a: Action)
    requires TableOK(g, lam, fst, states) && stp < |states|
    requires ShiftOK(g, states, states[stp], a) && !HasShift(states[stp], a.sp)
    ensures TableOK(g, lam, fst, states[stp := states[stp].(ap := states[stp].ap + [a])])
    ensures Room(g, states[stp := states[stp].(ap := states[stp].ap + [a])]) == Room(g, states)
  {
    var st' := states[stp].(ap := states[stp].ap + [a]);
    var states' := states[stp := st'];
    forall s: nat | s < |states'| ensures EntryOK(g, lam, fst, states', s) {
      assert EntryOK(g, lam, fst, states, s);
      forall k | 0 <= k < |states'[s].ap| ensures ShiftOK(g, states', states'[s], states'[s].ap[k]) {
        if k < |states[s].ap| {
          assert states'[s].ap[k] == states[s].ap[k];
          assert ShiftOK(g, states, states[s], states[s].ap[k]);
        }
      }
    }
    forall s | 0 <= s < |states| ensures states'[s].bp == states[s].bp { }
    assert Bases(states') == Bases(states);
  }

  function ShiftLinks(g: Grammar, cfp: seq<Item>, stp: nat, sp: nat, newstp: nat): set<(Config, Config)>
  {
    set it | it in cfp && HasNext(g, it, sp) :: (Config(newstp, Advance(it)), Config(stp, it))
  }

  lemma BackShift(g: Grammar, states: seq<State>, stp: nat, sp: nat, newstp: nat, back: set<(Config, Config)>)
    requires BackOK(g, states, back) && stp < |states|
    ensures BackOK(g, states[stp := states[stp].(ap := states[stp].ap + [Action(sp, SHIFT(newstp))])],
                   back + ShiftLinks(g, states[stp].cfp, stp, sp, newstp))
  {
    var ap := states[stp].ap;
    var states' := states[stp := states[stp].(ap := ap + [Action(sp, SHIFT(newstp))])];
    var more := ShiftLinks(g, states[stp].cfp, stp, sp, newstp);
    forall c, d ensures (c, d) in back + more <==> IsBackLink(g, states', c, d) {
      if d.st == stp {
        if IsBackLink(g, states, c, d) {
          var k :| 0 <= k < |ap| && ap[k].kind == SHIFT(c.st) && HasNext(g, d.item, ap[k].sp);
          assert states'[stp].ap[k] == ap[k];
        }
        if (c, d) in more {
          assert states'[stp].ap[|ap|] == Action(sp, SHIFT(newstp));
        }
        if IsBackLink(g, states', c, d) {
          var k :| 0 <= k < |ap| + 1 && states'[stp].ap[k].kind == SHIFT(c.st) && HasNext(g, d.item, states'[stp].ap[k].sp);
          if k < |ap| {
            assert ap[k] == states'[stp].ap[k];
          } else {
            assert (Config(newstp, Advance(d.item)), Config(stp, d.item)) in more;
          }
        }
      } else {
        assert d.st < |states| ==> states'[d.st] == states[d.st];
      }
    }
  }

  // ---------------------------------------------------------------------------
  // The recursive construction
  // ---------------------------------------------------------------------------

  ghost predicate HandledMarks(g: Grammar, cfp: seq<Item>, complete: seq<bool>, handled: set<nat>)
  {
    |complete| == |cfp| && forall j | 0 <= j < |cfp| :: complete[j] <==> exists x | x in handled :: HasNext(g, cfp[j], x)
  }

  /** No configuration before position `i` still needs a shift. */
  ghost predicate HandledBefore(g: Grammar, cfp: seq<Item>, handled: set<nat>, i: nat)
  {
    forall j, x: nat | 0 <= j < |cfp| && j < i && HasNext(g, cfp[j], x) :: x in handled
  }

  lemma NoDupAppend<T>(s: seq<T>, x: T)
    requires NoDup(s) && x !in s
    ensures NoDup(s + [x])
  {
  }

  /**
   The inner loop of `buildshifts`: collect, from position `i` on, every configuration
   with `sp` after its dot, moved over `sp`, and mark it complete.
   */
  method CollectBasis(g: Grammar, cfp: seq<Item>, complete: seq<bool>, i: nat, sp: nat, ghost handled: set<nat>)
      returns (basis: seq<Item>, complete': seq<bool>)
    requires HandledMarks(g, cfp, complete, handled) && HandledBefore(g, cfp, handled, i)
    requires NoDup(cfp) && i < |cfp| && HasNext(g, cfp[i], sp) && !complete[i]
    ensures NoDup(basis) && ItemsOf(basis) == Kernel(g, ItemsOf(cfp), sp)
    ensures HandledMarks(g, cfp, complete', handled + {sp}) && sp !in handled
  {
    basis, complete' := [], complete;
    var j := i;
    while j < |cfp|
      invariant i <= j <= |cfp|
      invariant |complete'| == |cfp| && NoDup(basis)
      invariant forall it :: it in basis <==> exists k :: i <= k < j && HasNext(g, cfp[k], sp) && it == Advance(cfp[k])
      invariant forall k | 0 <= k < |cfp| :: complete'[k] <==> complete[k] || (i <= k < j && HasNext(g, cfp[k], sp))
    {
      if !complete'[j] && HasNext(g, cfp[j], sp) {
        complete' := complete'[j := true];
        assert Advance(cfp[j]) !in basis by {
          forall k | i <= k < j ensures Advance(cfp[k]) != Advance(cfp[j]) { assert cfp[k] != cfp[j]; }
        }
        NoDupAppend(basis, Advance(cfp[j]));
        basis := basis + [Advance(cfp[j])];
      }
      j := j + 1;
    }
    var c := ItemsOf(cfp);
    forall it | it in Kernel(g, c, sp) ensures it in basis {
      var it0 :| it0 in c && HasNext(g, it0, sp) && it == Advance(it0);
      var k :| 0 <= k < |cfp| && cfp[k] == it0;
    }
    forall k | 0 <= k < |cfp| ensures complete'[k] <==> exists x | x in handled + {sp} :: HasNext(g, cfp[k], x) {
    }
  }

  /** The shifts of `st` are on exactly the symbols `xs`. */
  ghost predicate ShiftsFor(st: State, xs: set<nat>)
  {
    forall x: nat :: x in xs <==> HasShift(st, x)
  }

  /** Where `buildshifts` stands on state `st` when the configurations before `i` are done. */
  ghost predicate ShiftMarks(g: Grammar, st: State, complete: seq<bool>, handled: set<nat>, i: nat)
  {
    HandledMarks(g, st.cfp, complete, handled) && HandledBefore(g, st.cfp, handled, i) && ShiftsFor(st, handled)
  }

  lemma ShiftsForAppend(st: State, a: Action, xs: set<nat>)
    requires ShiftsFor(st, xs)
    ensures ShiftsFor(st.(ap := st.ap + [a]), xs + {a.sp})
  {
    var st' := st.(ap := st.ap + [a]);
    forall x: nat ensures x in xs + {a.sp} <==> HasShift(st', x) {
      if HasShift(st, x) {
        var k :| 0 <= k < |st.ap| && st.ap[k].sp == x;
        assert st'.ap[k].sp == x;
      }
      assert st'.ap[|st.ap|] == a;
    }
  }

  lemma HandledNext(g: Grammar, cfp: seq<Item>, handled: set<nat>, i: nat)
    requires HandledBefore(g, cfp, handled, i) && i < |cfp|
    requires forall x: nat | HasNext(g, cfp[i], x) :: x in handled
    ensures HandledBefore(g, cfp, handled, i + 1)
  {
  }

  lemma AllShifted(g: Grammar, st: State, handled: set<nat>)
    requires ItemsOf(st.cfp) == ClosureOf(g, st.bp) && ShiftsFor(st, handled) && HandledBefore(g, st.cfp, handled, |st.cfp|)
    ensures Built(g, st)
  {
    forall x: nat | Kernel(g, ClosureOf(g, st.bp), x) != {} ensures HasShift(st, x) {
      var it :| it in ItemsOf(st.cfp) && HasNext(g, it, x);
      var j :| 0 <= j < |st.cfp| && st.cfp[j] == it;
    }
  }

  lemma BasesGrow(g: Grammar, states: seq<State>, states': seq<State>)
    requires |states| <= |states'| && forall s | 0 <= s < |states| :: states'[s] == states[s]
    ensures Room(g, states') <= Room(g, states)
  {
    forall b | b in Bases(states) ensures b in Bases(states') {
      var s :| 0 <= s < |states| && states[s].bp == b;
      assert states'[s].bp == b;
    }
    SmallerSet(BasesLeft(g, states'), BasesLeft(g, states));
  }

  /** The states that were added have been built, and the others are as they were. */
  ghost predicate Appended(g: Grammar, a: seq<State>, b: seq<State>)
  {
    && |a| <= |b| && (forall s | 0 <= s < |a| :: b[s] == a[s])
    && (forall s | |a| <= s < |b| :: Built(g, b[s]))
  }

  /** Only the action list of state `stp` has changed, and the states that were added have been built. */
  ghost predicate Extended(g: Grammar, a: seq<State>, b: seq<State>, stp: nat)
  {
    && stp < |a| && SameExcept(a, b, stp) && Room(g, b) <= Room(g, a) && b[stp] == a[stp].(ap := b[stp].ap)
    && forall s | |a| <= s < |b| :: Built(g, b[s])
  }

  lemma ExtendedTwice(g: Grammar, a: seq<State>, b: seq<State>, c: seq<State>, stp: nat)
    requires Extended(g, a, b, stp) && Extended(g, b, c, stp)
    ensures Extended(g, a, c, stp)
  {
    forall s | |a| <= s < |c| ensures Built(g, c[s]) {
      if s < |b| { assert c[s] == b[s]; }
    }
  }

  /** The dot of a configuration is in its rule. */
  lemma DotInRule(g: Grammar, st: State, i: nat)
    requires ItemSet(g, st.bp) && ItemsOf(st.cfp) == ClosureOf(g, st.bp) && i < |st.cfp|
    ensures st.cfp[i].rule < |g.rules| && st.cfp[i].dot <= |g.rules[st.cfp[i].rule].rhs|
  {
    ClosureOfIsClosure(g, st.bp);
    assert st.cfp[i] in ItemsOf(st.cfp);
  }

  function AddShift(states: seq<State>, stp: nat, sp: nat, newstp: nat): seq<State>
    requires stp < |states|
  {
    states[stp := states[stp].(ap := states[stp].ap + [Action(sp, SHIFT(newstp))])]
  }

  /** The table with the shift of `stp` on `sp` to the state that was found or built for it. */
  lemma ShiftAdded(g: Grammar, lam: seq<bool>, fst: seq<set<nat>>, states0: seq<State>, states: seq<State>, back: set<(Config, Config)>, stp: nat, sp: nat, newstp: nat)
    requires TableOK(g, lam, fst, states) && BackOK(g, states, back) && stp < |states0| && Appended(g, states0, states)
    requires !HasShift(states0[stp], sp) && newstp < |states| && states[newstp].bp == Kernel(g, ClosureOf(g, states0[stp].bp), sp) != {}
    ensures var states' := AddShift(states, stp, sp, newstp);
            && TableOK(g, lam, fst, states') && BackOK(g, states', back + ShiftLinks(g, states[stp].cfp, stp, sp, newstp))
            && Extended(g, states0, states', stp) && states'[stp] == states0[stp].(ap := states0[stp].ap + [Action(sp, SHIFT(newstp))])
  {
    assert ShiftOK(g, states, states[stp], Action(sp, SHIFT(newstp)));
    TableShift(g, lam, fst, states, stp, Action(sp, SHIFT(newstp)));
    BackShift(g, states, stp, sp, newstp, back);
    BasesGrow(g, states0, states);
    UpdateKeeps(states0, states, stp, states[stp].(ap := states[stp].ap + [Action(sp, SHIFT(newstp))]));
  }

  class Generator {
    const g: Grammar
    const lam: seq<bool>
    const fst: seq<set<nat>>
    /** The state table, in the order the states were entered. */
    var states: seq<State>
    /** The back links: `(c, d)` when `d` is on the `bplp` list of `c`. */
    var back: set<(Config, Config)>

    constructor (g: Grammar, lam: seq<bool>, fst: seq<set<nat>>)
      ensures this.g == g && this.lam == lam && this.fst == fst && states == [] && back == {}
    {
      this.g, this.lam, this.fst, this.states, this.back := g, lam, fst, [], {};
    }

    ghost predicate Valid()
      reads this
    {
      && g.Valid() && |lam| == |fst| == g.nsymbol
      && (forall x: nat | x < |lam| && lam[x] :: g.IsNonterminal(x))
      && TableOK(g, lam, fst, states) && BackOK(g, states, back)
    }

    /** `State_find`: the state with the given basis. */
    method StateFind(b: set<Item>) returns (stp: Option<nat>)
      ensures stp.Some? ==> stp.value < |states| && states[stp.value].bp == b
      ensures stp.None? ==> forall s | 0 <= s < |states| :: states[s].bp != b
    {
      for s := 0 to |states|
        invariant forall t | 0 <= t < s :: states[t].bp != b
      {
        if states[s].bp == b { return Some(s); }
      }
      return None;
    }

    /** Return the state described by the configuration list `basis`, building it and all its successors if it is new. */
    method GetState(basis: seq<Item>) returns (stp: nat)
      requires Valid() && NoDup(basis) && ItemSet(g, ItemsOf(basis)) && Needed(g, ItemsOf(basis))
      modifies this
      ensures Valid() && Appended(g, old(states), states)
      ensures stp < |states| && states[stp].bp == ItemsOf(basis)
      ensures |old(states)| == 0 ==> stp == 0
      decreases Room(g, states), 0
    {
      var bp := set it | it in basis;
      var found := StateFind(bp);
      match found {
        case Some(s) =>
          stp := s;
        case None =>
          stp := NewState(basis, bp);
          BuildShifts(stp);
      }
    }

    /** Append a state without shifts for a basis that no state has. */
    method NewState(basis: seq<Item>, bp: set<Item>) returns (stp: nat)
      requires Valid() && NoDup(basis) && bp == ItemsOf(basis) && ItemSet(g, bp) && Needed(g, bp)
      requires forall s | 0 <= s < |states| :: states[s].bp != bp
      modifies this
      ensures Valid() && old(states) <= states && Room(g, states) < Room(g, old(states))
      ensures stp == |old(states)| && |states| == stp + 1 && states[stp].bp == bp && states[stp].ap == []
    {
      var seed := SeedOf(|states| == 0, bp);
      var cfp, fws, fplp := Closure(g, lam, fst, basis, seed);
      stp := |states|;
      var st := State(bp, cfp, fws, fplp, []);
      TableAppend(g, lam, fst, states, st);
      BackAppend(g, states, st, back);
      states := states + [st];
    }

    /** Enter the successor of `stp` on `sp`: get its state, add the back links and the shift action. */
    method ShiftOn(stp: nat, sp: nat, basis: seq<Item>) returns (newstp: nat)
      requires Valid() && stp < |states| && !HasShift(states[stp], sp)
      requires NoDup(basis) && ItemsOf(basis) == Kernel(g, ClosureOf(g, states[stp].bp), sp) != {}
      modifies this
      ensures Valid() && Extended(g, old(states), states, stp)
      ensures states[stp] == old(states)[stp].(ap := old(states)[stp].ap + [Action(sp, SHIFT(newstp))])
      decreases Room(g, states), 1
    {
      assert EntryOK(g, lam, fst, states, stp);
      KernelItems(g, ClosureOf(g, states[stp].bp), sp);
      NeededKernel(g, states[stp].bp, sp);
      newstp := GetState(basis);
      ShiftAdded(g, lam, fst, old(states), states, back, stp, sp, newstp);
      back := back + ShiftLinks(g, states[stp].cfp, stp, sp, newstp);
      states := AddShift(states, stp, sp, newstp);
    }

    /** The outer loop body of `buildshifts`: shift the symbol after the dot of configuration `i`, unless that was done before. */
    method ShiftConfig(stp: nat, i: nat, complete: seq<bool>, ghost handled: set<nat>) returns (complete': seq<bool>, ghost handled': set<nat>)
      requires Valid() && stp < |states| && i < |states[stp].cfp|
      requires ShiftMarks(g, states[stp], complete, handled, i)
      modifies this
      ensures Valid() && Extended(g, old(states), states, stp)
      ensures ShiftMarks(g, states[stp], complete', handled', i + 1)
      decreases Room(g, states), 2
    {
      complete', handled' := complete, handled;
      assert EntryOK(g, lam, fst, states, stp);
      var cfp := states[stp].cfp;
      DotInRule(g, states[stp], i);
      if !complete[i] && cfp[i].dot < |g.rules[cfp[i].rule].rhs| {
        var sp := g.rules[cfp[i].rule].rhs[cfp[i].dot];
        complete' := ShiftSymbol(stp, i, sp, complete, handled);
        handled' := handled + {sp};
      }
      HandledNext(g, cfp, handled', i);
    }

    /** Shift symbol `sp`, which configuration `i` is the first to have after its dot. */
    method ShiftSymbol(stp: nat, i: nat, sp: nat, complete: seq<bool>, ghost handled: set<nat>) returns (complete': seq<bool>)
      requires Valid() && stp < |states| && i < |states[stp].cfp| && HasNext(g, states[stp].cfp[i], sp)
      requires ShiftMarks(g, states[stp], complete, handled, i) && !complete[i]
      modifies this
      ensures Valid() && Extended(g, old(states), states, stp)
      ensures states[stp].cfp == old(states)[stp].cfp && ShiftMarks(g, states[stp], complete', handled + {sp}, i)
      decreases Room(g, states), 2, 0
    {
      assert EntryOK(g, lam, fst, states, stp);
      ghost var st0 := states[stp];
      var cfp := states[stp].cfp;
      var basis;
      basis, complete' := CollectBasis(g, cfp, complete, i, sp, handled);
      KernelItems(g, ItemsOf(cfp), sp);
      var newstp := ShiftOn(stp, sp, basis);
      ShiftsForAppend(st0, Action(sp, SHIFT(newstp)), handled);
    }

    /** Construct all successor states of the state `stp`. */
    method BuildShifts(stp: nat)
      requires Valid() && stp < |states| && states[stp].ap == []
      modifies this
      ensures Valid() && Extended(g, old(states), states, stp) && Built(g, states[stp])
      decreases Room(g, states), 3
    {
      ghost var states0 := states;
      var n := |states[stp].cfp|;
      var complete := seq(n, _ => false);
      ghost var handled: set<nat> := {};
      var i := 0;
      while i < n
        invariant 0 <= i <= n
        invariant Valid() && Extended(g, states0, states, stp)
        invariant ShiftMarks(g, states[stp], complete, handled, i)
      {
        ghost var states1 := states;
        complete, handled := ShiftConfig(stp, i, complete, handled);
        ExtendedTwice(g, states0, states1, states, stp);
        i := i + 1;
      }
      assert EntryOK(g, lam, fst, states, stp);
      AllShifted(g, states[stp], handled);
    }

    /** Build the state table, starting with the state of the start rules. */
    method FindStates()
      requires Valid() && states == []
      modifies this
      ensures Valid() && states != [] && states[0].bp == StartBasis(g)
      ensures forall s | 0 <= s < |states| :: Built(g, states[s])
      ensures GotoClosed(g, Bases(states)) && forall bases | StartBasis(g) in bases && GotoClosed(g, bases) :: Bases(states) <= bases
    {
      var basis: seq<Item> := [];
      var r := 0;
      while r < |g.rules|
        invariant 0 <= r <= |g.rules| && NoDup(basis)
        invariant forall it :: it in basis <==> it.rule < r && g.rules[it.rule].lhs == g.start && it.dot == 0
      {
        if g.rules[r].lhs == g.start { basis := basis + [Item(r, 0)]; }
        r := r + 1;
      }
      assert ItemsOf(basis) == StartBasis(g);
      var stp := GetState(basis);
      BuiltTableIsLeast(g, lam, fst, states);
    }
  }
}
