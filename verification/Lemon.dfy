/**
 The whole generator, and what the parsers it generates do.  A grammar goes in; packed
 tables come out, or the reason why they would not work.  The driver that runs on the
 tables accepts only sentences, and for an LALR(1) grammar all of them.
 */
module Lemon {
  import opened Options
  import opened Grammars
  import opened FirstSets
  import opened Items
  import opened Configlist
  import opened Actions
  import opened States
  import opened FollowSets
  import opened Conflicts
  import opened MergeSort
  import opened FindActions
  import opened Machine
  import opened Soundness
  import opened Completeness
  import opened Lalr
  import opened LalrGrammar
  import opened LookaheadsExact
  import opened Optimized
  import opened Compress
  import opened ShortCuts
  import opened ThreePasses
  import opened Compression
  import opened LalrCycles
  import opened Resort
  import opened Packing
  import opened Driver

  // ---------------------------------------------------------------------------
  // Analysis
  // ---------------------------------------------------------------------------

  lemma FirstIsTerminal(g: Grammar, lam: seq<bool>, fst: seq<set<nat>>, a: seq<nat>, t: nat)
    requires |lam| == |fst| == g.nsymbol && Exact(g, lam, fst) && InFirst(g, lam, fst, a, t)
    ensures g.IsTerminal(t)
  {
    var j: nat :| Contributes(g, lam, fst, a, t, j);
    if !g.IsTerminal(a[j]) { assert g.IsNonterminal(a[j]); }
  }

  /** The follow sets that closures start with hold terminals only. */
  lemma SeedsAreTerminals(g: Grammar, lam: seq<bool>, fst: seq<set<nat>>, states: seq<State>, s: nat, it: Item, t: nat)
    requires g.Valid() && |lam| == |fst| == g.nsymbol && Exact(g, lam, fst) && Finished(g, lam, fst, states)
    requires s < |states| && it in states[s].fws && t in states[s].fws[it]
    ensures t < g.nterminal
  {
    assert EntryOK(g, lam, fst, states, s);
    var st := states[s];
    assert Seeded(g, lam, fst, ItemsOf(st.cfp), SeedOf(s == 0, st.bp), it, t);
    if Spontaneous(g, lam, fst, ItemsOf(st.cfp), it.rule, t) {
      var it0 :| it0 in ItemsOf(st.cfp) && Calls(g, it0, it.rule) && InFirst(g, lam, fst, Rest(g, it0), t);
      FirstIsTerminal(g, lam, fst, Rest(g, it0), t);
    }
  }

  /** The state table, with first sets. */
  method BuildStates(g: Grammar) returns (lam: seq<bool>, fst: seq<set<nat>>, states: seq<State>, back: set<(Config, Config)>)
    requires g.Valid()
    ensures |lam| == |fst| == g.nsymbol && Exact(g, lam, fst) && Finished(g, lam, fst, states) && BackOK(g, states, back)
  {
    var lambda, firstset := new bool[g.nsymbol], new set<nat>[g.nsymbol];
    FindFirstSets(g, lambda, firstset);
    lam, fst := lambda[..], firstset[..];
    var gen := new Generator(g, lam, fst);
    gen.FindStates();
    states, back := gen.states, gen.back;
  }

  /** The lookaheads of all configurations. */
  method BuildLookaheads(g: Grammar, states: seq<State>, back: set<(Config, Config)>, ghost lam: seq<bool>, ghost fst: seq<set<nat>>)
      returns (fws: Sets, ghost fplp: Links, ghost init: Sets)
    requires g.Valid() && |lam| == |fst| == g.nsymbol && Exact(g, lam, fst) && Finished(g, lam, fst, states) && BackOK(g, states, back)
    ensures Followed(g, states, fplp, init, fws) && Bounded(g.nterminal, fws)
  {
    var cfgs := AllConfigs(states);
    var links := FindLinks(g, states, cfgs, back);
    var sets: Sets := map c | c in cfgs :: if c.st < |states| && c.item in states[c.st].fws then states[c.st].fws[c.item] else {};
    fplp, init := links, sets;
    StartSets(g, lam, fst, states, fplp, init);
    fws := FindFollowSets(g.nterminal, cfgs, links, sets);
    forall c, t: nat | c in fws && t in fws[c] ensures t < g.nterminal {
      var a :| a in init && t in init[a] && Reaches(fplp, a, c);
    }
  }

  lemma StartSets(g: Grammar, lam: seq<bool>, fst: seq<set<nat>>, states: seq<State>, fplp: Links, init: Sets)
    requires g.Valid() && |lam| == |fst| == g.nsymbol && Exact(g, lam, fst) && Finished(g, lam, fst, states)
    requires (forall c :: c in init <==> IsConfig(states, c)) && (forall c :: c in fplp <==> IsConfig(states, c))
    requires forall c | c in init :: init[c] == if c.st < |states| && c.item in states[c.st].fws then states[c.st].fws[c.item] else {}
    requires forall c, d | c in fplp :: d in fplp[c] <==> Forward(g, states, c, d)
    ensures LinksStay(fplp, init) && Bounded(g.nterminal, init)
    ensures forall c | IsConfig(states, c) :: c.item in states[c.st].fws && init[c] == states[c.st].fws[c.item]
  {
    forall c | IsConfig(states, c) ensures c.item in states[c.st].fws {
      assert EntryOK(g, lam, fst, states, c.st);
      assert c.item in ItemsOf(states[c.st].cfp);
    }
    forall c, t: nat | c in init && t in init[c] ensures t < g.nterminal {
      SeedsAreTerminals(g, lam, fst, states, c.st, c.item, t);
    }
    forall c, d | c in fplp && d in fplp[c] ensures IsConfig(states, d) {
      LinkTarget(g, lam, fst, states, c, d);
    }
  }

  lemma LinkTarget(g: Grammar, lam: seq<bool>, fst: seq<set<nat>>, states: seq<State>, c: Config, d: Config)
    requires Finished(g, lam, fst, states) && Forward(g, states, c, d)
    ensures IsConfig(states, d)
  {
    if IsBackLink(g, states, d, c) {
      var k :| 0 <= k < |states[c.st].ap| && states[c.st].ap[k].kind == SHIFT(d.st) && HasNext(g, c.item, states[c.st].ap[k].sp);
      var x := states[c.st].ap[k].sp;
      assert EntryOK(g, lam, fst, states, c.st) && ShiftOK(g, states, states[c.st], states[c.st].ap[k]) && EntryOK(g, lam, fst, states, d.st);
      assert c.item in ItemsOf(states[c.st].cfp);
      KernelItems(g, ClosureOf(g, states[c.st].bp), x);
      ClosureOfIsClosure(g, states[d.st].bp);
      assert d.item in ItemsOf(states[d.st].cfp);
    } else {
      assert EntryOK(g, lam, fst, states, c.st);
      ClosureOfIsClosure(g, states[c.st].bp);
      assert Linked(g, lam, states[c.st].fplp, ItemsOf(states[c.st].cfp));
      assert d.item == Item(d.item.rule, 0);
      assert d.item in ItemsOf(states[c.st].cfp);
    }
  }

  /** The lists of a state are small enough to be sorted. */
  predicate Sized(g: Grammar, st: State)
  {
    |st.ap| + |st.cfp| * g.nterminal + 1 < Pow2(LISTSIZE)
  }

  /** The list of state `s` is what `FindActions` should leave. */
  ghost predicate StateActions(g: Grammar, states: seq<State>, la: Lookaheads, s: nat, ap: seq<Action>)
  {
    && s < |states| == |la| && ActionsMade(g, states[s], la[s], s == 0, ap)
    && ActionsOK(g, states[s], la[s], s == 0, ap) && |ap| <= |states[s].ap| + |states[s].cfp| * g.nterminal + 1
  }

  method ActionsOfState(g: Grammar, states: seq<State>, la: Lookaheads, s: nat, ghost lam: seq<bool>, ghost fst: seq<set<nat>>) returns (ap: seq<Action>)
    requires g.Valid() && Finished(g, lam, fst, states) && s < |states| == |la| && Sized(g, states[s]) && la[s].Keys == ItemsOf(states[s].cfp)
    ensures StateActions(g, states, la, s, ap)
  {
    StateReady(g, lam, fst, states, s);
    var nconflict;
    ap, nconflict := ActionsOf(g, states[s], la[s], s == 0);
  }

  /** The lists of the first states. */
  ghost predicate ListsOf(g: Grammar, states: seq<State>, la: Lookaheads, acts: ActionLists)
  {
    forall s: nat | s < |acts| :: StateActions(g, states, la, s, acts[s])
  }

  lemma OneListMore(g: Grammar, states: seq<State>, la: Lookaheads, acts: ActionLists, ap: seq<Action>)
    requires ListsOf(g, states, la, acts) && StateActions(g, states, la, |acts|, ap)
    ensures ListsOf(g, states, la, acts + [ap])
  {
    var acts' := acts + [ap];
    forall s: nat | s < |acts'| ensures acts'[s] == if s < |acts| then acts[s] else ap { }
  }

  /** The actions of all states. */
  method BuildActions(g: Grammar, states: seq<State>, fws: Sets, ghost lam: seq<bool>, ghost fst: seq<set<nat>>) returns (acts: ActionLists)
    requires g.Valid() && Finished(g, lam, fst, states) && forall s | 0 <= s < |states| :: Sized(g, states[s])
    ensures |acts| == |states| && ListsOf(g, states, LaOf(states, fws), acts)
  {
    var la := LaOf(states, fws);
    acts := [];
    var i := 0;
    while i < |states|
      invariant 0 <= i <= |states| && |acts| == i && ListsOf(g, states, la, acts)
    {
      assert la[i].Keys == ItemsOf(states[i].cfp);
      var ap := ActionsOfState(g, states, la, i, lam, fst);
      OneListMore(g, states, la, acts, ap);
      acts := acts + [ap];
      i := i + 1;
    }
  }

  lemma StateReady(g: Grammar, lam: seq<bool>, fst: seq<set<nat>>, states: seq<State>, s: nat)
    requires g.Valid() && Finished(g, lam, fst, states) && s < |states|
    ensures ShiftList(g, states[s].ap) && NoDup(states[s].cfp) && ItemSet(g, ItemsOf(states[s].cfp))
  {
    assert EntryOK(g, lam, fst, states, s);
    ClosureOfIsClosure(g, states[s].bp);
    forall k | 0 <= k < |states[s].ap| ensures states[s].ap[k].kind.SHIFT? && states[s].ap[k].sp != g.start {
      assert ShiftOK(g, states, states[s], states[s].ap[k]);
      GoSymbols(g, lam, fst, states, s, k);
    }
  }

  // ---------------------------------------------------------------------------
  // Tables
  // ---------------------------------------------------------------------------

  lemma MadeBySymbol(g: Grammar, st: State, la: map<Item, set<nat>>, start: bool, ap: seq<Action>)
    requires ActionsMade(g, st, la, start, ap)
    ensures BySymbol(ap)
  {
    var sorted: seq<Action> :| IsSortedRaw(g, st, la, start, sorted) && ap == ResolveFrom(g, sorted, 0);
    LoopResolves(g, sorted);
    forall i, j | 0 <= i < j < |ap| ensures ap[i].sp <= ap[j].sp {
      assert ActionCmp(g, sorted[i], sorted[j]) <= 0;
      assert ap[i].sp == sorted[i].sp && ap[j].sp == sorted[j].sp;
    }
  }

  lemma StateCompressible(g: Grammar, lam: seq<bool>, fst: seq<set<nat>>, states: seq<State>, la: Lookaheads, s: nat, ap: seq<Action>)
    requires g.Valid() && Finished(g, lam, fst, states) && StateActions(g, states, la, s, ap) && NoErrors(ap) && Sized(g, states[s])
    ensures Compressible(g, ap)
  {
    UniqueEntries(g, lam, fst, states, la[s], s, ap);
    assert BySymbol(ap) by { MadeBySymbol(g, states[s], la[s], s == 0, ap); }
    assert TokenReduces(g, ap) by { ListTokenReduces(g, lam, fst, states, la[s], s, ap); }
  }

  lemma ListTokenReduces(g: Grammar, lam: seq<bool>, fst: seq<set<nat>>, states: seq<State>, la: map<Item, set<nat>>, s: nat, ap: seq<Action>)
    requires g.Valid() && Finished(g, lam, fst, states) && s < |states| && ActionsOK(g, states[s], la, s == 0, ap)
    ensures TokenReduces(g, ap)
  {
    forall k | 0 <= k < |ap| && ap[k].kind.REDUCE? ensures ap[k].sp < g.nterminal {
      assert Emits(ap[k]);
      RawLookahead(g, lam, fst, states, la, s, ap[k]);
    }
  }

  /** What later stages need of an entry of the compressed table. */
  ghost predicate EntryUsable(g: Grammar, auto: Autos, n: nat, x: nat, a: Act)
  {
    && x <= g.nsymbol && (x == g.nsymbol ==> a.Reduce?)
    && (a.Shift? ==> a.st < n && a.st < |auto| && auto[a.st].None?)
    && (a.ShiftReduce? || a.Reduce? ==> a.rule < |g.rules|)
  }

  lemma EntriesUsable(g: Grammar, m: Automaton, tab0: Table, tab: Table, auto: Autos, rank: (nat, nat) -> nat, s: nat, x: nat)
    requires TableSound(g, m, tab) && AutomatonOK(g, m) && IsOptimized(g, tab0, tab, auto, UnitRules(g)) && Ranked(g, tab0, auto, UnitRules(g), rank)
    requires s < |tab| && x in tab[s] && forall y | y in tab0[s] :: y < g.nsymbol
    ensures EntryUsable(g, auto, |tab|, x, tab[s][x])
  {
    assert RowSound(g, m, tab, s) && EntrySound(g, m, s, x, tab[s][x]) && RowOpt(g, tab0, tab, auto, UnitRules(g), s) && StateGoOK(g, m, s);
    if tab[s][x].Shift? {
      ShiftsArePlain(g, tab0, tab, auto, UnitRules(g), rank, s, x);
      var t := tab[s][x].st;
      var y: nat :| Derives(g, [y], [x]) && m.Goes(s, y, t);
    }
  }

  /** Everything known about the generator's tables. */
  ghost predicate TablesOf(g: Grammar, m: Automaton, tab0: Table, tab: Table, auto: Autos, so: Sorting)
  {
    && g.Valid() && AutomatonOK(g, m) && TableSound(g, m, tab) && IsOptimized(g, tab0, tab, auto, UnitRules(g))
    && |so.num| == |tab| && IsNumbering(so.order, so.num) && IsCut(so.order, auto, so.nxstate)
    && |auto| == |tab| && forall s: nat | s < |tab| :: RowUsable(g, auto, tab, s)
  }

  ghost predicate RowUsable(g: Grammar, auto: Autos, tab: Table, s: nat)
  {
    s < |tab| && forall x | x in tab[s] :: EntryUsable(g, auto, |tab|, x, tab[s][x])
  }

  lemma ListSortable(g: Grammar, auto: Autos, tab: Table, s: nat, ap: seq<Action>)
    requires RowUsable(g, auto, tab, s) && tab[s] == RowOf(ap) && UniqueEmit(ap) && g.nterminal <= g.nsymbol
    ensures Sortable(g, |tab|, ap)
    ensures forall num: seq<nat> | |num| == |tab| :: Encodes(g, num, ap)
  {
    forall k | 0 <= k < |ap| && Emits(ap[k])
      ensures ap[k].sp <= g.nsymbol && (ap[k].kind.SHIFT? ==> ap[k].kind.stp < |tab|) && (ap[k].sp == g.nsymbol ==> ap[k].kind.REDUCE?)
    {
      RowHas(ap, k);
      assert EntryUsable(g, auto, |tab|, ap[k].sp, tab[s][ap[k].sp]);
    }
  }

  /** Renumber and pack. */
  method LayOut(g: Grammar, acts: ActionLists, acts': ActionLists, auto: Autos, ghost m: Automaton, ghost bests: seq<Option<nat>>)
      returns (so: Sorting, pk: Packed, ghost ax: seq<Ax>, ghost log: seq<Stage>)
    requires PlainTable(g, m, TableOf(acts)) && Passed1(g, TableOf(acts), bests, auto) && AllAcyclic(g, Tab2(g, TableOf(acts), bests, auto))
    requires |acts'| == |acts| && IsOptimized(g, TableOf(acts), TableOf(acts'), auto, UnitRules(g)) && forall s | 0 <= s < |acts'| :: UniqueEmit(acts'[s])
    requires (forall s: nat | s < |acts| :: NoDefaultKeys(g, acts[s])) && 0 < 2 * |acts| < Pow2(LISTSIZE)
    ensures TablesOf(g, m, TableOf(acts), TableOf(acts'), auto, so)
    ensures Resorted(g, acts', auto, so) && PackedBy(g, acts', so, ax, log, pk)
    ensures Clean(log) ==> Packs(g, TableOf(acts'), so, pk)
    ensures |pk.shiftOfst| == so.nxstate <==> CountPart(g, acts'[so.order[so.nxstate - 1]], true) > 0
  {
    Tab2Ranked(g, m, TableOf(acts), bests, auto);
    CompressedUsable(g, acts, acts', m, auto, RankOf(g, Tab2(g, TableOf(acts), bests, auto)));
    ListsSortable(g, auto, acts');
    so := ResortStates(g, acts', auto);
    pk, ax, log := PackTables(g, acts', auto, so);
  }

  lemma ListsSortable(g: Grammar, auto: Autos, acts: ActionLists)
    requires g.nterminal <= g.nsymbol && forall s: nat | s < |acts| :: UniqueEmit(acts[s]) && RowUsable(g, auto, TableOf(acts), s)
    ensures forall s | 0 <= s < |acts| :: Sortable(g, |acts|, acts[s])
    ensures forall s, num: seq<nat> | 0 <= s < |acts| && |num| == |acts| :: Encodes(g, num, acts[s])
  {
    forall s | 0 <= s < |acts| ensures Sortable(g, |acts|, acts[s]) && forall num: seq<nat> | |num| == |acts| :: Encodes(g, num, acts[s]) {
      ListSortable(g, auto, TableOf(acts), s, acts[s]);
    }
  }

  ghost predicate NoDefaultKeys(g: Grammar, ap: seq<Action>)
  {
    forall x | x in RowOf(ap) :: x < g.nsymbol
  }

  lemma CompressedUsable(g: Grammar, acts: ActionLists, acts': ActionLists, m: Automaton, auto: Autos, rank: (nat, nat) -> nat)
    requires PlainTable(g, m, TableOf(acts)) && IsOptimized(g, TableOf(acts), TableOf(acts'), auto, UnitRules(g))
    requires Ranked(g, TableOf(acts), auto, UnitRules(g), rank)
    requires forall s: nat | s < |acts| :: NoDefaultKeys(g, acts[s])
    ensures TableSound(g, m, TableOf(acts')) && forall s: nat | s < |acts'| :: RowUsable(g, auto, TableOf(acts'), s)
  {
    OptimizedSound(g, m, TableOf(acts), TableOf(acts'), auto, UnitRules(g), rank);
    forall s: nat | s < |acts'| ensures RowUsable(g, auto, TableOf(acts'), s) {
      forall x | x in TableOf(acts')[s] ensures EntryUsable(g, auto, |TableOf(acts')|, x, TableOf(acts')[s][x]) {
        assert NoDefaultKeys(g, acts[s]);
        EntriesUsable(g, m, TableOf(acts), TableOf(acts'), auto, rank, s, x);
      }
    }
  }

  // ---------------------------------------------------------------------------
  // The parser
  // ---------------------------------------------------------------------------

  /** The driver can run on the tables: there was room for every row, all offsets are covered, no right-hand side is too long. */
  lemma TablesAreReady(g: Grammar, m: Automaton, tab0: Table, tab: Table, auto: Autos, so: Sorting, pk: Packed)
    requires TablesOf(g, m, tab0, tab, auto, so) && Packs(g, tab, so, pk) && |pk.shiftOfst| == so.nxstate
    requires forall r | 0 <= r < |g.rules| :: |g.rules[r].rhs| < 256
    ensures Ready(g, tab, so, pk)
  {
    forall s: nat | s < |tab| ensures RowKept(g, tab, so, s) {
      assert RowUsable(g, auto, tab, s);
      forall x | x in tab[s] ensures ActKept(g, so, tab[s][x]) {
        assert EntryUsable(g, auto, |tab|, x, tab[s][x]);
        if tab[s][x].Shift? {
          var t := tab[s][x].st;
          assert so.order[so.num[t]] == t;
        }
      }
    }
  }

  /** The compressed table accepts only sentences, and all of them if the grammar is LALR(1). */
  lemma AcceptsIsDerives(g: Grammar, lam: seq<bool>, fst: seq<set<nat>>, states: seq<State>, fplp: Links, init: Sets, fws: Sets, acts: ActionLists,
                         tab: Table, auto: Autos, so: Sorting, w: seq<nat>)
    requires Generated(g, lam, fst, states, fplp, init, fws, acts) && Bounded(g.nterminal, fws)
    requires TablesOf(g, AutomatonOf(states), TableOf(acts), tab, auto, so) && IsSentence(g, w)
    ensures Accepts(g, tab, w) ==> Derives(g, [g.start], w)
    ensures IsLalr(g) && Derives(g, [g.start], w) ==> Accepts(g, tab, w)
  {
    if Accepts(g, tab, w) { ParserSound(g, AutomatonOf(states), tab, w); }
    if IsLalr(g) && Derives(g, [g.start], w) {
      ConflictsExactly(g, lam, fst, states, fplp, init, fws);
      UncompressedComplete(g, lam, fst, states, fplp, init, fws, acts);
      ParserComplete(g, lam, fst, AutomatonOf(states), LaOf(states, fws), TableOf(acts), w);
      CompressedAccepts(g, TableOf(acts), tab, auto, w);
    }
  }

  lemma CompressedAccepts(g: Grammar, tab0: Table, tab: Table, auto: Autos, w: seq<nat>)
    requires g.Valid() && IsOptimized(g, tab0, tab, auto, UnitRules(g)) && IsSentence(g, w) && Accepts(g, tab0, w)
    ensures Accepts(g, tab, w)
  {
    var n: nat :| Run(g, tab0, Init, w + [0], n).Some?;
    var m := RunMatches(g, tab0, tab, auto, UnitRules(g), Init, Init, w + [0], n);
  }

  // ---------------------------------------------------------------------------
  // From the grammar to the parser
  // ---------------------------------------------------------------------------

  /** The states and lookaheads are those of the grammar. */
  ghost predicate Analysed(g: Grammar, lam: seq<bool>, fst: seq<set<nat>>, states: seq<State>, fplp: Links, init: Sets, fws: Sets)
  {
    && |lam| == |fst| == g.nsymbol && Exact(g, lam, fst) && Finished(g, lam, fst, states) && Followed(g, states, fplp, init, fws)
  }

  /** What it means for packed tables to be a parser of the grammar. */
  ghost predicate ParserFor(g: Grammar, pk: Packed)
  {
    exists m: Automaton, tab: Table, so: Sorting :: Serves(g, pk, m, tab, so)
  }

  ghost predicate Serves(g: Grammar, pk: Packed, m: Automaton, tab: Table, so: Sorting)
  {
    && Ready(g, tab, so, pk) && AutomatonOK(g, m) && TableSound(g, m, tab)
    && (forall w | IsSentence(g, w) && Accepts(g, tab, w) :: Derives(g, [g.start], w))
    && (IsLalr(g) ==> forall w | IsSentence(g, w) && Derives(g, [g.start], w) :: Accepts(g, tab, w))
  }

  /** What the generator makes of a grammar: packed tables, or why they would not work. */
  datatype Product = Tables(pk: Packed) | TooLarge | Tie | UnitCycle(s: nat, out: Passage) | LongRule | NotCovered | NoRoom

  /** Some shift has been turned into an error by a nonassociative tie. */
  predicate HasErrors(acts: ActionLists)
  {
    exists s, k :: 0 <= s < |acts| && 0 <= k < |acts[s]| && acts[s][k].kind == Kind.ERROR
  }

  predicate HasLongRule(g: Grammar)
  {
    exists r :: 0 <= r < |g.rules| && |g.rules[r].rhs| >= 256
  }

  /** All lists fit the sort. */
  predicate AllSized(g: Grammar, states: seq<State>)
  {
    2 * |states| < Pow2(LISTSIZE) && forall s | 0 <= s < |states| :: Sized(g, states[s])
  }

  /** Everything that the generator makes on its way. */
  datatype Making = Making(
    lam: seq<bool>, fst: seq<set<nat>>, states: seq<State>, fplp: Links, init: Sets, fws: Sets, acts: ActionLists,
    bests: seq<Option<nat>>, auto: Autos, acts2: ActionLists, acts3: ActionLists,
    so: Sorting, ax: seq<Ax>, log: seq<Stage>, pk: Packed)

  /** The lists are those of the states. */
  ghost predicate ListsMade(g: Grammar, states: seq<State>, fws: Sets, acts: ActionLists)
  {
    |acts| == |states| && ListsOf(g, states, LaOf(states, fws), acts)
  }

  /** The table after the first two passes. */
  ghost function TwoPassTable(g: Grammar, mk: Making): Table
    requires |mk.bests| == |mk.acts|
  {
    Tab2(g, TableOf(mk.acts), mk.bests, mk.auto)
  }

  /** The lists are compressed, the states renumbered and the rows packed. */
  ghost predicate TablesMade(g: Grammar, mk: Making)
  {
    && TwoPassed(g, mk.acts, mk.bests, mk.auto, mk.acts2)
    && (AllAcyclic(g, TwoPassTable(g, mk)) ==>
          && |mk.acts3| == |mk.acts| && TableOf(mk.acts3) == Tab3(g, TwoPassTable(g, mk)) && (forall s | 0 <= s < |mk.acts3| :: UniqueEmit(mk.acts3[s]))
          && Resorted(g, mk.acts3, mk.auto, mk.so) && PackedBy(g, mk.acts3, mk.so, mk.ax, mk.log, mk.pk))
  }

  /** Every stage of the generator that is reached has been made from the ones before. */
  ghost predicate MadeFrom(g: Grammar, mk: Making)
  {
    && Analysed(g, mk.lam, mk.fst, mk.states, mk.fplp, mk.init, mk.fws)
    && (AllSized(g, mk.states) ==> ListsMade(g, mk.states, mk.fws, mk.acts) && (!HasErrors(mk.acts) ==> TablesMade(g, mk)))
  }

  /** The lists can be sorted, no tie has left an error, and no row has a cycle of code-free unit rules: there are tables. */
  ghost predicate HasTables(g: Grammar, mk: Making)
  {
    AllSized(g, mk.states) && !HasErrors(mk.acts) && |mk.bests| == |mk.acts| && AllAcyclic(g, TwoPassTable(g, mk))
  }

  /** The tables work: no rule is too long for a byte, all offsets are covered, and the packed tables say what the table says. */
  ghost predicate Works(g: Grammar, mk: Making)
  {
    HasTables(g, mk) && !HasLongRule(g) && |mk.pk.shiftOfst| == mk.so.nxstate && Packs(g, TableOf(mk.acts3), mk.so, mk.pk)
  }

  /** The product tells exactly whether the tables work, and if not, what the first reason is. */
  ghost predicate Produces(g: Grammar, mk: Making, product: Product)
  {
    match product
    case TooLarge => !AllSized(g, mk.states)
    case Tie => AllSized(g, mk.states) && HasErrors(mk.acts)
    case UnitCycle(s, out) =>
      AllSized(g, mk.states) && !HasErrors(mk.acts) && |mk.bests| == |mk.acts| && StopsIn(g, TwoPassTable(g, mk), mk.acts2, s, out)
    case LongRule => HasTables(g, mk) && HasLongRule(g)
    case NotCovered => HasTables(g, mk) && !HasLongRule(g) && |mk.pk.shiftOfst| != mk.so.nxstate
    case NoRoom => HasTables(g, mk) && !HasLongRule(g) && |mk.pk.shiftOfst| == mk.so.nxstate && !Packs(g, TableOf(mk.acts3), mk.so, mk.pk)
    case Tables(pk) => Works(g, mk) && pk == mk.pk
  }

  lemma LalrHasNoTie(g: Grammar, lam: seq<bool>, fst: seq<set<nat>>, states: seq<State>, fplp: Links, init: Sets, fws: Sets, acts: ActionLists)
    requires g.Valid() && Analysed(g, lam, fst, states, fplp, init, fws) && ListsMade(g, states, fws, acts)
    requires HasErrors(acts)
    ensures !IsLalr(g)
  {
    var s, k :| 0 <= s < |acts| && 0 <= k < |acts[s]| && acts[s][k].kind == Kind.ERROR;
    assert StateActions(g, states, LaOf(states, fws), s, acts[s]);
    assert !ConflictFree(g, states[s], LaOf(states, fws)[s], s == 0);
    ConflictsExactly(g, lam, fst, states, fplp, init, fws);
  }

  /** The lists of a grammar without ties can be compressed. */
  lemma ActionsAreUsable(g: Grammar, lam: seq<bool>, fst: seq<set<nat>>, states: seq<State>, fplp: Links, init: Sets, fws: Sets, acts: ActionLists)
    requires g.Valid() && Analysed(g, lam, fst, states, fplp, init, fws) && ListsMade(g, states, fws, acts) && AllSized(g, states) && !HasErrors(acts)
    ensures Generated(g, lam, fst, states, fplp, init, fws, acts) && PlainTable(g, AutomatonOf(states), TableOf(acts))
    ensures forall s: nat | s < |acts| :: Compressible(g, acts[s]) && NoDefaultKeys(g, acts[s])
  {
    forall s: nat | s < |acts| ensures Compressible(g, acts[s]) && NoDefaultKeys(g, acts[s]) && NoErrors(acts[s]) {
      assert StateActions(g, states, LaOf(states, fws), s, acts[s]) && Sized(g, states[s]);
      StateCompressible(g, lam, fst, states, LaOf(states, fws), s, acts[s]);
      forall x | x in RowOf(acts[s]) ensures x < g.nsymbol {
        var a := RowOfEntry(g, lam, fst, states, LaOf(states, fws)[s], s, acts[s], x);
      }
    }
    GeneratedIsPlain(g, lam, fst, states, fplp, init, fws, acts);
  }

  lemma TablesServe(g: Grammar, lam: seq<bool>, fst: seq<set<nat>>, states: seq<State>, fplp: Links, init: Sets, fws: Sets, acts: ActionLists,
                    tab: Table, auto: Autos, so: Sorting, pk: Packed)
    requires Generated(g, lam, fst, states, fplp, init, fws, acts) && Bounded(g.nterminal, fws) && !HasLongRule(g)
    requires TablesOf(g, AutomatonOf(states), TableOf(acts), tab, auto, so) && Packs(g, tab, so, pk) && |pk.shiftOfst| == so.nxstate
    ensures ParserFor(g, pk)
  {
    TablesAreReady(g, AutomatonOf(states), TableOf(acts), tab, auto, so, pk);
    forall w | IsSentence(g, w)
      ensures Accepts(g, tab, w) ==> Derives(g, [g.start], w)
      ensures IsLalr(g) && Derives(g, [g.start], w) ==> Accepts(g, tab, w)
    {
      AcceptsIsDerives(g, lam, fst, states, fplp, init, fws, acts, tab, auto, so, w);
    }
    assert Serves(g, pk, AutomatonOf(states), tab, so);
  }

  /** The lists that the compression starts from, or why there are none. */
  method BuildLists(g: Grammar) returns (fits: bool, states: seq<State>, acts: ActionLists, ghost mk: Making)
    requires g.Valid()
    ensures Analysed(g, mk.lam, mk.fst, mk.states, mk.fplp, mk.init, mk.fws) && Bounded(g.nterminal, mk.fws)
    ensures states == mk.states && acts == mk.acts && (fits <==> AllSized(g, states)) && (fits ==> ListsMade(g, mk.states, mk.fws, mk.acts))
  {
    var lam, fst, back;
    lam, fst, states, back := BuildStates(g);
    var fws;
    ghost var fplp, init;
    fws, fplp, init := BuildLookaheads(g, states, back, lam, fst);
    fits := AllSized(g, states);
    acts := [];
    if fits { acts := BuildActions(g, states, fws, lam, fst); }
    mk := NoTables(lam, fst, states, fplp, init, fws, acts);
  }

  /** A making that has come as far as the lists. */
  ghost function NoTables(lam: seq<bool>, fst: seq<set<nat>>, states: seq<State>, fplp: Links, init: Sets, fws: Sets, acts: ActionLists): Making
  {
    Making(lam, fst, states, fplp, init, fws, acts, [], [], [], [], Sorting([], [], [], [], [], 0), [], [], Packed(0, 0, 0, [], 0, [], [], 0, []))
  }

  /** A cycle in some row means that the grammar is not LALR(1). */
  lemma CycleIsNotLalr(g: Grammar, mk: Making)
    requires Analysed(g, mk.lam, mk.fst, mk.states, mk.fplp, mk.init, mk.fws) && Bounded(g.nterminal, mk.fws)
    requires Generated(g, mk.lam, mk.fst, mk.states, mk.fplp, mk.init, mk.fws, mk.acts) && PlainTable(g, AutomatonOf(mk.states), TableOf(mk.acts))
    requires Passed1(g, TableOf(mk.acts), mk.bests, mk.auto) && !AllAcyclic(g, TwoPassTable(g, mk))
    ensures !IsLalr(g)
  {
    if IsLalr(g) {
      ConflictsExactly(g, mk.lam, mk.fst, mk.states, mk.fplp, mk.init, mk.fws);
      forall s: nat | s < |TwoPassTable(g, mk)| ensures CutsStay(g, TwoPassTable(g, mk)[s]) && Acyclic(g, TwoPassTable(g, mk)[s]) {
        LalrIsAcyclic(g, mk.lam, mk.fst, mk.states, mk.fplp, mk.init, mk.fws, mk.acts, mk.bests, mk.auto, s);
      }
      assert false;
    }
  }

  /** Whether the tables work. */
  method Judge(g: Grammar, acts': ActionLists, so: Sorting, pk: Packed) returns (product: Product)
    ensures match product
            case LongRule => HasLongRule(g)
            case NotCovered => !HasLongRule(g) && |pk.shiftOfst| != so.nxstate
            case NoRoom => !HasLongRule(g) && |pk.shiftOfst| == so.nxstate && !Packs(g, TableOf(acts'), so, pk)
            case Tables(pk') => pk' == pk && !HasLongRule(g) && |pk.shiftOfst| == so.nxstate && Packs(g, TableOf(acts'), so, pk)
            case _ => false
  {
    if HasLongRule(g) { return LongRule; }
    if |pk.shiftOfst| != so.nxstate { return NotCovered; }
    if !Packs(g, TableOf(acts'), so, pk) { return NoRoom; }
    return Tables(pk);
  }

  /** The tables of usable lists, and whether they work. */
  method BuildTables(g: Grammar, acts: ActionLists, ghost mk0: Making) returns (product: Product, ghost mk: Making)
    requires g.Valid() && Analysed(g, mk0.lam, mk0.fst, mk0.states, mk0.fplp, mk0.init, mk0.fws) && Bounded(g.nterminal, mk0.fws)
    requires AllSized(g, mk0.states) && ListsMade(g, mk0.states, mk0.fws, mk0.acts) && acts == mk0.acts && !HasErrors(acts)
    ensures MadeFrom(g, mk) && Produces(g, mk, product)
    ensures product.Tables? ==> ParserFor(g, product.pk)
    ensures !product.Tie? && (IsLalr(g) ==> !product.UnitCycle?)
    ensures product.NoRoom? ==> !Clean(mk.log)
  {
    ghost var m := AutomatonOf(mk0.states);
    ActionsAreUsable(g, mk0.lam, mk0.fst, mk0.states, mk0.fplp, mk0.init, mk0.fws, acts);
    var sh, auto;
    ghost var bests, acts2;
    sh, auto, bests, acts2 := CompressTables(g, acts, m);
    mk := mk0.(bests := bests, auto := auto, acts2 := acts2);
    if sh.StopsAt? {
      CycleIsNotLalr(g, mk);
      return UnitCycle(sh.s, sh.out), mk;
    }
    var so, pk;
    ghost var ax, log;
    so, pk, ax, log := LayOut(g, acts, sh.acts, auto, m, bests);
    mk := mk.(acts3 := sh.acts, so := so, ax := ax, log := log, pk := pk);
    product := Judge(g, sh.acts, so, pk);
    if product.Tables? {
      TablesServe(g, mk.lam, mk.fst, mk.states, mk.fplp, mk.init, mk.fws, acts, TableOf(sh.acts), auto, so, pk);
    }
  }

  /**
   The generator: from a grammar to a parser for it.  Where the tables would not work, it
   says why: the lists are too long to be sorted; a nonassociative tie has left an error, so
   that the grammar is not LALR(1); the code-free unit rules of a row form a cycle, which
   the compression does not get through, and which no LALR(1) grammar has; a rule has too
   many symbols for a byte; the last kept state has no action on a token; or an insertion
   into the action table found no room.
   The ghost result tells what has been made on the way, stage by stage.
   */
  method Generate(g: Grammar) returns (product: Product, ghost mk: Making)
    requires g.Valid()
    ensures MadeFrom(g, mk) && Produces(g, mk, product)
    ensures product.Tables? <==> Works(g, mk)
    ensures product.Tables? ==> ParserFor(g, product.pk)
    ensures IsLalr(g) ==> !product.Tie? && !product.UnitCycle?
    ensures product.NoRoom? ==> !Clean(mk.log)
    ensures product.LongRule? ==> exists r :: 0 <= r < |g.rules| && |g.rules[r].rhs| >= 256
    ensures product.TooLarge? ==>
              || 2 * |mk.states| >= 0x4000_0000
              || exists s :: 0 <= s < |mk.states| && |mk.states[s].ap| + |mk.states[s].cfp| * g.nterminal + 1 >= 0x4000_0000
  {
    SlotsCapacity();
    var fits, states, acts;
    fits, states, acts, mk := BuildLists(g);
    if !fits { return TooLarge, mk; }
    if HasErrors(acts) {
      LalrHasNoTie(g, mk.lam, mk.fst, mk.states, mk.fplp, mk.init, mk.fws, acts);
      return Tie, mk;
    }
    product, mk := BuildTables(g, acts, mk);
  }

  /**
   Run a generated parser on a token string, with at most `fuel` iterations per token.
   Unless its stack overflows, it accepts only sentences of the grammar.  If the grammar
   is LALR(1) and the fuel is as much as there are stacks, it accepts all of them: an
   answer other than `Accepting` and `Overflow`, even running out of fuel, means that the
   string is not a sentence.
   */
  method Parse(g: Grammar, pk: Packed, depth: nat, w: seq<nat>, fuel: nat) returns (st: Status)
    requires ParserFor(g, pk) && depth >= 2 && IsSentence(g, w)
    ensures st == Accepting ==> Derives(g, [g.start], w)
    ensures IsLalr(g) && st != Overflow && (st != Reducing || fuel >= Bound(g, pk, depth)) ==> (st == Accepting <==> Derives(g, [g.start], w))
  {
    ghost var m: Automaton, tab: Table, so: Sorting :| Serves(g, pk, m, tab, so);
    var p := new YyParser(g, pk, depth, tab, so);
    InitReached(g, m);
    st := p.Recognize(w, fuel, m);
  }

  /**
   A parser out of a grammar.  There is one exactly if the tables work; for an LALR(1) grammar
   it accepts exactly the sentences, unless the stack overflows.
   */
  method GenerateAndParse(g: Grammar, depth: nat, w: seq<nat>, fuel: nat) returns (product: Product, st: Status, ghost mk: Making)
    requires g.Valid() && depth >= 2 && IsSentence(g, w)
    ensures MadeFrom(g, mk) && Produces(g, mk, product)
    ensures product.Tables? <==> Works(g, mk)
    ensures IsLalr(g) ==> !product.Tie? && !product.UnitCycle?
    ensures product.NoRoom? ==> !Clean(mk.log)
    ensures product.Tables? && st == Accepting ==> Derives(g, [g.start], w)
    ensures product.Tables? && IsLalr(g) && st != Overflow && fuel >= Bound(g, product.pk, depth) ==> (st == Accepting <==> Derives(g, [g.start], w))
  {
    st := SyntaxErr;
    product, mk := Generate(g);
    if product.Tables? { st := Parse(g, product.pk, depth, w, fuel); }
  }
}
