/**
 The generated parser: the fixed-depth stack, the packed tables, and the loop that
 looks up, shifts and reduces until the token is consumed.  Each iteration is one step
 of the abstract machine, and no assertion of the driver fails.
 */
module Driver {
  import opened FiniteSets
  import opened Grammars
  import opened Machine
  import opened Soundness
  import opened Optimized
  import opened ActTab
  import opened Resort
  import opened Packing

  /** `stateno` is a state number, or the reduce action that a shift-reduce has left. */
  datatype StackEntry = StackEntry(stateno: int, major: nat)

  /** The number of symbols that a reduction pops, as an unsigned char. */
  function NRhs(g: Grammar, r: nat): nat
    requires r < |g.rules|
  {
    |g.rules[r].rhs| % 256
  }

  /** The driver pops the whole right-hand side exactly if it has fewer than 256 symbols. */
  lemma PopsRhs(g: Grammar, r: nat)
    requires r < |g.rules|
    ensures NRhs(g, r) == |g.rules[r].rhs| <==> |g.rules[r].rhs| < 256
  {
  }

  /** Every state that an action shifts to is kept, and every rule is one of the grammar. */
  ghost predicate ActKept(g: Grammar, so: Sorting, a: Act)
  {
    match a
    case Shift(t) => t < |so.num| && so.num[t] < so.nxstate
    case ShiftReduce(r) => r < |g.rules|
    case Reduce(r) => r < |g.rules|
    case _ => true
  }

  /** All that the driver relies on. */
  ghost predicate Ready(g: Grammar, tab: Table, so: Sorting, pk: Packed)
  {
    && Packs(g, tab, so, pk) && IsNumbering(so.order, so.num) && 1 <= so.nxstate <= |so.num|
    && |pk.shiftOfst| == so.nxstate
    && g.Valid() && (forall r | 0 <= r < |g.rules| :: |g.rules[r].rhs| < 256)
    && (forall s: nat | s < |tab| :: RowKept(g, tab, so, s))
  }

  ghost predicate RowKept(g: Grammar, tab: Table, so: Sorting, s: nat)
  {
    s < |tab| && forall x | x in tab[s] :: ActKept(g, so, tab[s][x])
  }

  ghost predicate TopKept(g: Grammar, so: Sorting, t: Top)
  {
    match t
    case St(s) => s < |so.num| && so.num[s] < so.nxstate
    case Red(r) => r < |g.rules|
  }

  /** The number of a stack entry. */
  function TopCode(num: seq<nat>, nrule: nat, t: Top): int
  {
    match t
    case St(s) => if s < |num| then num[s] else -1
    case Red(r) => |num| + nrule + r
  }

  /** What a state number stands for. */
  function Decode(so: Sorting, pk: Packed, n: int): Top
  {
    if n >= pk.MinReduce() then Red(n - pk.MinReduce()) else if 0 <= n < |so.order| then St(so.order[n]) else St(0)
  }

  lemma DecodeCode(g: Grammar, tab: Table, so: Sorting, pk: Packed, t: Top)
    requires Ready(g, tab, so, pk) && TopKept(g, so, t)
    ensures Decode(so, pk, TopCode(so.num, pk.nrule, t)) == t
  {
  }

  ghost predicate StatenoOK(so: Sorting, pk: Packed, n: int)
  {
    0 <= n < so.nxstate || pk.MinReduce() <= n <= pk.MaxReduce()
  }

  ghost predicate StackEntryOK(g: Grammar, so: Sorting, pk: Packed, e: StackEntry)
  {
    StatenoOK(so, pk, e.stateno) && e.major < g.nsymbol
  }

  // ---------------------------------------------------------------------------
  // The two lookups
  // ---------------------------------------------------------------------------

  /** `yy_find_shift_action`. */
  function FindShiftAction(pk: Packed, stateno: int, a: nat): int
    requires pk.count <= |pk.action|
    requires stateno >= pk.MinReduce() || 0 <= stateno < |pk.shiftOfst| <= |pk.dflt|
  {
    if stateno >= pk.MinReduce() then stateno
    else
      match Lookup(pk.action, pk.count, pk.shiftOfst[stateno], a)
      case Some(act) => act
      case None => pk.dflt[stateno]
  }

  /** `yy_find_reduce_action`, with its assertions as preconditions. */
  function FindReduceAction(pk: Packed, stateno: int, x: nat): int
    requires pk.count <= |pk.action| && 0 <= stateno < |pk.reduceOfst| && pk.reduceOfst[stateno] != pk.reduceUseDflt
    requires Lookup(pk.action, pk.count, pk.reduceOfst[stateno], x).Some?
  {
    pk.action[pk.reduceOfst[stateno] + x].action
  }

  lemma FindShiftIs(g: Grammar, tab: Table, so: Sorting, pk: Packed, t: Top, a: nat)
    requires Ready(g, tab, so, pk) && TopKept(g, so, t) && g.IsTerminal(a)
    ensures var n := TopCode(so.num, pk.nrule, t);
            && pk.count <= |pk.action| && (n >= pk.MinReduce() || 0 <= n < |pk.shiftOfst| <= |pk.dflt|)
            && FindShiftAction(pk, n, a) == Code(so.num, pk.nrule, TokenAct(g, tab, t, a))
            && ActKept(g, so, TokenAct(g, tab, t, a))
  {
    assert RowPacked(g, tab, so, pk, 0);
    if t.St? {
      assert RowPacked(g, tab, so, pk, t.id) && RowKept(g, tab, so, t.id);
    }
  }

  lemma FindReduceIs(g: Grammar, tab: Table, so: Sorting, pk: Packed, s: nat, x: nat)
    requires Ready(g, tab, so, pk) && s < |tab| && so.num[s] < so.nxstate && g.IsNonterminal(x) && x in tab[s]
    ensures pk.count <= |pk.action| && so.num[s] < |pk.reduceOfst| && pk.reduceOfst[so.num[s]] != pk.reduceUseDflt
    ensures Lookup(pk.action, pk.count, pk.reduceOfst[so.num[s]], x).Some?
    ensures FindReduceAction(pk, so.num[s], x) == Code(so.num, pk.nrule, GotoAct(tab, s, x))
    ensures ActKept(g, so, GotoAct(tab, s, x))
  {
    assert RowPacked(g, tab, so, pk, s) && RowKept(g, tab, so, s);
  }

  // ---------------------------------------------------------------------------
  // The parser
  // ---------------------------------------------------------------------------

  /** How one iteration of the parser loop, or a whole call of the parser, ends. */
  datatype Status = Reducing | Consumed | Accepting | SyntaxErr | Overflow

  /** The stack that a step leaves is more than the parser can hold. */
  ghost predicate Overflows(out: Outcome, depth: nat)
  {
    (out.Shifted? || out.Reduced?) && |out.stack| > depth
  }

  /** What one iteration makes of a step of the abstract machine. */
  ghost predicate Stepped(out: Outcome, depth: nat, before: Stack, after: Stack, st: Status)
  {
    if Overflows(out, depth) then st == Overflow && |after| == 1
    else
      match out
      case Shifted(s) => st == Consumed && after == s
      case Reduced(s, r) => st == Reducing && after == s
      case Accepted(r) => st == Accepting && |after| == 1
      case SyntaxError => st == SyntaxErr && after == before
      case Stuck => false
  }

  class YyParser {
    const g: Grammar
    const pk: Packed
    const depth: nat
    ghost const tab: Table
    ghost const so: Sorting
    const yystack: array<StackEntry>
    var yytos: nat

    ghost predicate Valid()
      reads this, yystack
    {
      && Ready(g, tab, so, pk) && yystack.Length == depth && yytos < depth && depth >= 2
      && (forall i | 0 <= i <= yytos :: StackEntryOK(g, so, pk, yystack[i]))
    }

    /** The stack in the terms of the abstract machine. */
    ghost function Abs(): (s: Stack)
      requires Valid()
      reads this, yystack
      ensures |s| == yytos + 1 && forall i | 0 <= i <= yytos :: s[i] == Entry(Decode(so, pk, yystack[i].stateno), yystack[i].major)
    {
      seq(yytos + 1, i requires 0 <= i <= yytos && Valid() reads this, yystack => Entry(Decode(so, pk, yystack[i].stateno), yystack[i].major))
    }

    constructor (g: Grammar, pk: Packed, depth: nat, ghost tab: Table, ghost so: Sorting)
      requires Ready(g, tab, so, pk) && depth >= 2
      ensures Valid() && fresh(yystack) && this.g == g && this.pk == pk && this.depth == depth && this.tab == tab && this.so == so
      ensures Abs() == Init
    {
      this.g, this.pk, this.depth, this.tab, this.so := g, pk, depth, tab, so;
      yystack := new StackEntry[depth](_ => StackEntry(0, 0));
      yytos := 0;
    }

    /** Put an entry on top of entry `k`. */
    method Put(k: nat, stateno: int, major: nat, ghost top: Top)
      requires Valid() && k <= yytos && k + 1 < depth && major < g.nsymbol
      requires TopKept(g, so, top) && stateno == TopCode(so.num, pk.nrule, top)
      modifies this, yystack
      ensures Valid() && Abs() == Push(old(Abs())[..k + 1], top, major)
    {
      DecodeCode(g, tab, so, pk, top);
      yytos := k + 1;
      yystack[yytos] := StackEntry(stateno, major);
    }

    /** Pop everything. */
    method Clear()
      requires Valid()
      modifies this
      ensures Valid() && Abs() == old(Abs())[..1]
    {
      while yytos > 0
        invariant Valid() && Abs() == old(Abs())[..yytos + 1]
      {
        yytos := yytos - 1;
      }
    }

    /** `yy_shift`. */
    method Shift(yyNewState: int, yyMajor: nat, ghost act: Act) returns (ok: bool)
      requires Valid() && (act.Shift? || act.ShiftReduce?) && ActKept(g, so, act) && yyNewState == Code(so.num, pk.nrule, act) && yyMajor < g.nsymbol
      modifies this, yystack
      ensures Valid() && (ok <==> |old(Abs())| < depth)
      ensures if ok then Abs() == Push(old(Abs()), TopFor(act), yyMajor) else |Abs()| == 1
    {
      if yytos + 1 >= depth {
        Clear();
        return false;
      }
      var stateno := yyNewState;
      if stateno > pk.MaxShift() {
        stateno := stateno + pk.MinReduce() - pk.MinShiftReduce();
      }
      assert Abs()[..yytos + 1] == Abs();
      Put(yytos, stateno, yyMajor, TopFor(act));
      return true;
    }

    /** `yy_reduce`: pop the right-hand side, look up the goto, push the left-hand side. */
    method Reduce(r: nat) returns (st: Status)
      requires Valid() && r < |g.rules| && !ReduceBy(g, tab, Abs(), r).Stuck?
      modifies this, yystack
      ensures Valid() && Stepped(ReduceBy(g, tab, old(Abs()), r), depth, old(Abs()), Abs(), st)
    {
      var yysize := NRhs(g, r);
      PopsRhs(g, r);
      ghost var act := GotoKept(g, tab, so, pk, Abs(), r, yystack[yytos - yysize].stateno);
      if yysize == 0 && yytos >= depth - 1 {
        Clear();
        return Overflow;
      }
      var yygoto := g.rules[r].lhs;
      var yyact := FindReduceAction(pk, yystack[yytos - yysize].stateno, yygoto);
      if yyact <= pk.MaxShiftReduce() {
        if yyact > pk.MaxShift() {
          yyact := yyact + pk.MinReduce() - pk.MinShiftReduce();
        }
        Put(yytos - yysize, yyact, yygoto, TopFor(act));
        return Reducing;
      } else {
        yytos := yytos - yysize;
        return Accepting;
      }
    }

    /** One iteration of the parser loop. */
    method Iterate(yymajor: nat) returns (st: Status)
      requires Valid() && g.IsTerminal(yymajor) && !StepOn(g, tab, Abs(), yymajor).Stuck?
      modifies this, yystack
      ensures Valid() && Stepped(StepOn(g, tab, old(Abs()), yymajor), depth, old(Abs()), Abs(), st)
    {
      ghost var top := TopOf(Abs());
      ghost var act := TokenAct(g, tab, top, yymajor);
      TopIsKept(g, tab, so, pk, yystack[yytos].stateno);
      FindShiftIs(g, tab, so, pk, top, yymajor);
      var yyact := FindShiftAction(pk, yystack[yytos].stateno, yymajor);
      if yyact <= pk.MaxShiftReduce() {
        var ok := Shift(yyact, yymajor, act);
        st := if ok then Consumed else Overflow;
      } else if yyact <= pk.MaxReduce() {
        st := Reduce(yyact - pk.MinReduce());
      } else {
        st := SyntaxErr;
      }
    }

    ghost predicate Running(m: Automaton)
      reads this, yystack
    {
      Valid() && AutomatonOK(g, m) && TableSound(g, m, tab) && Reached(g, m, Abs())
    }

    /** What the parser can have on its stack. */
    ghost predicate Holds(s: Stack)
    {
      |s| <= depth && forall i | 0 <= i < |s| :: s[i] in Entries(g, pk)
    }

    lemma AbsHolds()
      requires Valid()
      ensures Holds(Abs())
    {
      forall i | 0 <= i <= yytos ensures Abs()[i] in Entries(g, pk) {
        assert StackEntryOK(g, so, pk, yystack[i]);
        EntryIsIn(g, tab, so, pk, yystack[i]);
      }
    }

    /** Only reductions so far on token `a`: the stacks that they have left are `trace`. */
    ghost predicate Reduces(m: Automaton, a: nat, trace: seq<Stack>)
      reads this, yystack
    {
      && Running(m) && g.IsTerminal(a) && IsTrace(g, tab, a, trace) && trace[|trace| - 1] == Abs()
      && forall i | 0 <= i < |trace| :: Holds(trace[i])
    }

    /** The last step, from the last stack of `trace`, ended with `st`. */
    ghost predicate Parsed(m: Automaton, a: nat, trace: seq<Stack>, st: Status)
      reads this, yystack
    {
      && Valid() && IsTrace(g, tab, a, trace) && Stepped(StepOn(g, tab, trace[|trace| - 1], a), depth, trace[|trace| - 1], Abs(), st)
      && (st == Consumed ==> Running(m)) && (st == Accepting ==> a == 0)
    }

    /** One iteration: either one more reduction, or the end of the loop. */
    method NextIteration(yymajor: nat, ghost m: Automaton, ghost trace: seq<Stack>) returns (st: Status, ghost trace': seq<Stack>)
      requires Reduces(m, yymajor, trace)
      modifies this, yystack
      ensures trace' != [] && trace'[0] == trace[0]
      ensures st == Reducing ==> Reduces(m, yymajor, trace') && |trace'| == |trace| + 1
      ensures st != Reducing ==> Parsed(m, yymajor, trace', st)
    {
      ghost var s := Abs();
      ReachedStep(g, m, tab, s, yymajor);
      st := Iterate(yymajor);
      trace' := trace;
      if st == Reducing {
        AbsHolds();
        trace' := trace + [Abs()];
        TraceGrows(g, tab, yymajor, trace, Abs());
      }
    }

    /**
     Feed one token to the parser, for at most `fuel` iterations: `Reducing` if they were
     not enough.
     */
    method Parse(yymajor: nat, fuel: nat, ghost m: Automaton) returns (st: Status, ghost trace: seq<Stack>)
      requires Running(m) && g.IsTerminal(yymajor)
      modifies this, yystack
      ensures trace != [] && trace[0] == old(Abs())
      ensures st == Reducing ==> Reduces(m, yymajor, trace) && |trace| == fuel + 1
      ensures st != Reducing ==> Parsed(m, yymajor, trace, st)
    {
      AbsHolds();
      st, trace := Reducing, [Abs()];
      var left := fuel;
      while st == Reducing && left > 0
        invariant trace != [] && trace[0] == old(Abs())
        invariant st == Reducing ==> Reduces(m, yymajor, trace) && |trace| + left == fuel + 1
        invariant st != Reducing ==> Parsed(m, yymajor, trace, st)
        decreases left
      {
        st, trace := NextIteration(yymajor, m, trace);
        left := left - 1;
      }
    }

    /** The first `i` tokens of the input have been consumed, in `k` iterations. */
    ghost predicate Midway(m: Automaton, w: seq<nat>, i: nat, k: nat)
      reads this, yystack
    {
      Running(m) && ConsumedTo(g, tab, w, i, k, Abs())
    }

    /** What the outcome says about the whole input. */
    ghost predicate Answers(w: seq<nat>, fuel: nat, st: Status)
    {
      && (st != Overflow && st != Reducing ==> (st == Accepting <==> Accepts(g, tab, w)))
      && (st == Reducing ==> Unending(g, tab, w, fuel, Bound(g, pk, depth)))
    }

    /** Feed token `i`. */
    method NextToken(w: seq<nat>, i: nat, fuel: nat, ghost m: Automaton, ghost k: nat) returns (st: Status, ghost k': nat)
      requires Midway(m, w, i, k) && i <= |w| && IsSentence(g, w)
      modifies this, yystack
      ensures Valid() && (st == Consumed ==> Midway(m, w, i + 1, k')) && (st != Consumed ==> Answers(w, fuel, st))
    {
      var a := if i < |w| then w[i] else 0;
      ghost var before := Abs();
      ghost var trace;
      st, trace := Parse(a, fuel, m);
      k' := 0;
      if st == Reducing {
        FuelOut(g, tab, pk, depth, w, i, a, k, before, trace, fuel);
      } else {
        TraceLeads(g, tab, a, trace, 0, |trace| - 1);
        k' := AfterParse(g, tab, w, i, a, k, before, |trace| - 1, trace[|trace| - 1], depth, Abs(), st);
      }
    }

    /**
     Parse a token string, up to the end of input or the first error, with at most `fuel`
     iterations per token.  Unless the stack overflows or the fuel runs out, the parser
     accepts exactly what the abstract machine accepts.  If the fuel runs out, it was less
     than the machine needs; if it was as much as there are stacks, no fuel is enough.
     */
    method Recognize(w: seq<nat>, fuel: nat, ghost m: Automaton) returns (st: Status)
      requires Running(m) && Abs() == Init && IsSentence(g, w)
      modifies this, yystack
      ensures Valid() && Answers(w, fuel, st)
    {
      var i := 0;
      ghost var k: nat := 0;
      assert (w + [0])[0..] == w + [0];
      while i <= |w|
        invariant 0 <= i <= |w| + 1 && Midway(m, w, i, k)
      {
        st, k := NextToken(w, i, fuel, m, k);
        if st != Consumed { return; }
        i := i + 1;
      }
      assert (w + [0])[i..] == [];
      NotAccepted(g, tab, w, k, Abs());
      return Consumed;
    }
  }

  // ---------------------------------------------------------------------------
  // Runs of reductions
  // ---------------------------------------------------------------------------

  /** All entries that a stack can have. */
  ghost function Entries(g: Grammar, pk: Packed): set<Entry>
  {
    (set s: nat, x: nat | s < pk.nstate && x < g.nsymbol :: Entry(St(s), x)) + (set r: nat, x: nat | r < pk.nrule && x < g.nsymbol :: Entry(Red(r), x))
  }

  lemma EntryIsIn(g: Grammar, tab: Table, so: Sorting, pk: Packed, e: StackEntry)
    requires Ready(g, tab, so, pk) && StackEntryOK(g, so, pk, e)
    ensures Entry(Decode(so, pk, e.stateno), e.major) in Entries(g, pk)
  {
  }

  /** All sequences of at most `n` of the entries. */
  ghost function Sequences(entries: set<Entry>, n: nat): set<seq<Entry>>
  {
    if n == 0 then {[]} else {[]} + set s, e | s in Sequences(entries, n - 1) && e in entries :: s + [e]
  }

  lemma {:induction false} SequenceIsIn(entries: set<Entry>, n: nat, s: seq<Entry>)
    requires |s| <= n && forall i | 0 <= i < |s| :: s[i] in entries
    ensures s in Sequences(entries, n)
  {
    if s != [] {
      SequenceIsIn(entries, n - 1, s[..|s| - 1]);
      assert s == s[..|s| - 1] + [s[|s| - 1]];
    }
  }

  /** The number of stacks that the parser can have. */
  ghost function Bound(g: Grammar, pk: Packed, depth: nat): nat
  {
    |Sequences(Entries(g, pk), depth)|
  }

  /** Each stack is what a reduction on token `a` leaves of the one before. */
  ghost predicate IsTrace(g: Grammar, tab: Table, a: nat, trace: seq<Stack>)
  {
    trace != [] && forall i | 0 <= i < |trace| - 1 :: ReducesTo(g, tab, a, trace[i], trace[i + 1])
  }

  ghost predicate ReducesTo(g: Grammar, tab: Table, a: nat, s: Stack, s': Stack)
  {
    StepOn(g, tab, s, a).Reduced? && StepOn(g, tab, s, a).stack == s'
  }

  lemma TraceGrows(g: Grammar, tab: Table, a: nat, trace: seq<Stack>, s: Stack)
    requires IsTrace(g, tab, a, trace) && ReducesTo(g, tab, a, trace[|trace| - 1], s)
    ensures IsTrace(g, tab, a, trace + [s])
  {
    var trace' := trace + [s];
    forall i | 0 <= i < |trace'| - 1 ensures ReducesTo(g, tab, a, trace'[i], trace'[i + 1]) {
      if i < |trace| - 1 { assert ReducesTo(g, tab, a, trace[i], trace[i + 1]); }
    }
  }

  lemma {:induction false} TraceLeads(g: Grammar, tab: Table, a: nat, trace: seq<Stack>, i: nat, j: nat)
    requires IsTrace(g, tab, a, trace) && i <= j < |trace|
    ensures Leads(g, tab, trace[i], [a], j - i, trace[j], [a])
    decreases j - i
  {
    if i < j {
      assert ReducesTo(g, tab, a, trace[i], trace[i + 1]);
      TraceLeads(g, tab, a, trace, i + 1, j);
    }
  }

  lemma RepeatedTrace(g: Grammar, tab: Table, a: nat, trace: seq<Stack>, i: nat, j: nat, n: nat)
    requires IsTrace(g, tab, a, trace) && i < j < |trace| && trace[i] == trace[j]
    ensures !Ends(g, tab, trace[0], [a], n)
  {
    TraceLeads(g, tab, a, trace, i, j);
    if Ends(g, tab, trace[0], [a], n) {
      TraceLeads(g, tab, a, trace, 0, i);
      EndsAfter(g, tab, trace[0], [a], i, trace[i], [a], n);
      RepeatNeverEnds(g, tab, trace[i], a, j - i, n - i);
    }
  }

  /** A trace that is longer than there are stacks comes back to one. */
  lemma TraceRepeats(g: Grammar, tab: Table, pk: Packed, depth: nat, a: nat, trace: seq<Stack>, n: nat)
    requires IsTrace(g, tab, a, trace) && |trace| > Bound(g, pk, depth)
    requires forall i | 0 <= i < |trace| :: |trace[i]| <= depth && forall k | 0 <= k < |trace[i]| :: trace[i][k] in Entries(g, pk)
    ensures !Ends(g, tab, trace[0], [a], n)
  {
    var all := Sequences(Entries(g, pk), depth);
    forall i | 0 <= i < |trace| ensures trace[i] in all { SequenceIsIn(Entries(g, pk), depth, trace[i]); }
    var i, j := FindRepeat<seq<Entry>>(trace, all);
    RepeatedTrace(g, tab, a, trace, i, j, n);
  }

  /** The machine needs more than `fuel` iterations; from `bound` on, no number of them is enough. */
  ghost predicate Unending(g: Grammar, tab: Table, w: seq<nat>, fuel: nat, bound: nat)
  {
    && (forall n: nat | n <= fuel || fuel >= bound :: !Ends(g, tab, Init, w + [0], n))
    && (fuel >= bound ==> !Accepts(g, tab, w))
  }

  /** A machine that has made so many reductions needs more iterations than that. */
  lemma TraceGoesOn(g: Grammar, tab: Table, a: nat, trace: seq<Stack>, n: nat)
    requires IsTrace(g, tab, a, trace) && Ends(g, tab, trace[0], [a], n)
    ensures n > |trace| - 1
  {
    TraceLeads(g, tab, a, trace, 0, |trace| - 1);
    EndsAfter(g, tab, trace[0], [a], |trace| - 1, trace[|trace| - 1], [a], n);
  }

  lemma FuelOut(g: Grammar, tab: Table, pk: Packed, depth: nat, w: seq<nat>, i: nat, a: nat, k: nat, before: Stack, trace: seq<Stack>, fuel: nat)
    requires i <= |w| && a == (w + [0])[i] && ConsumedTo(g, tab, w, i, k, before)
    requires IsTrace(g, tab, a, trace) && trace[0] == before && |trace| == fuel + 1
    requires forall l | 0 <= l < |trace| :: |trace[l]| <= depth && forall j | 0 <= j < |trace[l]| :: trace[l][j] in Entries(g, pk)
    ensures Unending(g, tab, w, fuel, Bound(g, pk, depth))
  {
    forall n: nat | n <= fuel || fuel >= Bound(g, pk, depth) ensures !Ends(g, tab, Init, w + [0], n) {
      if Ends(g, tab, Init, w + [0], n) {
        EndsHere(g, tab, w, i, a, k, before, n);
        if fuel >= Bound(g, pk, depth) { TraceRepeats(g, tab, pk, depth, a, trace, n - k); } else { TraceGoesOn(g, tab, a, trace, n - k); }
      }
    }
    if fuel >= Bound(g, pk, depth) && Accepts(g, tab, w) {
      var n: nat :| Run(g, tab, Init, w + [0], n).Some?;
      RunEnds(g, tab, Init, w + [0], n);
    }
  }

  /** After `k` iterations on the input `w $` the first `i` tokens are consumed, and the stack is `s`. */
  ghost predicate ConsumedTo(g: Grammar, tab: Table, w: seq<nat>, i: nat, k: nat, s: Stack)
  {
    i <= |w| + 1 && Leads(g, tab, Init, w + [0], k, s, (w + [0])[i..])
  }

  lemma EndsHere(g: Grammar, tab: Table, w: seq<nat>, i: nat, a: nat, k: nat, s: Stack, n: nat)
    requires i <= |w| && a == (w + [0])[i] && Ends(g, tab, Init, w + [0], n) && ConsumedTo(g, tab, w, i, k, s)
    ensures n >= k && Ends(g, tab, s, [a], n - k)
  {
    var rest := (w + [0])[i + 1..];
    assert (w + [0])[i..] == [a] + rest;
    EndsAfter(g, tab, Init, w + [0], k, s, [a] + rest, n);
    EndsFirst(g, tab, s, a, rest, n - k);
  }

  /** What one call of the parser means for the whole input. */
  lemma AfterParse(g: Grammar, tab: Table, w: seq<nat>, i: nat, a: nat, k: nat, before: Stack, k1: nat, s1: Stack, depth: nat, after: Stack, st: Status) returns (k': nat)
    requires i <= |w| && a == (w + [0])[i] && IsSentence(g, w) && ConsumedTo(g, tab, w, i, k, before)
    requires Leads(g, tab, before, [a], k1, s1, [a]) && Stepped(StepOn(g, tab, s1, a), depth, s1, after, st)
    requires st != Reducing && (st == Accepting ==> a == 0)
    ensures st == Consumed ==> ConsumedTo(g, tab, w, i + 1, k', after)
    ensures st != Consumed && st != Overflow ==> (st == Accepting <==> Accepts(g, tab, w))
  {
    var rest := (w + [0])[i + 1..];
    assert (w + [0])[i..] == [a] + rest;
    LeadsLift(g, tab, before, a, k1, s1, rest);
    LeadsTrans(g, tab, Init, w + [0], k, before, [a] + rest, k1, s1, [a] + rest);
    k' := k + k1 + 1;
    if st == Consumed {
      Consumes(g, tab, Init, w + [0], k + k1, s1, a, rest);
    } else if st != Overflow {
      Decided(g, tab, w, i, k + k1, s1, depth, after, st);
    }
  }

  lemma {:induction false} EndsFirst(g: Grammar, tab: Table, s: Stack, a: nat, rest: seq<nat>, n: nat)
    requires Ends(g, tab, s, [a] + rest, n)
    ensures Ends(g, tab, s, [a], n)
    decreases n
  {
    match StepOn(g, tab, s, a)
    case Shifted(t) => assert [a][1..] == [];
    case Reduced(t, r) => EndsFirst(g, tab, t, a, rest, n - 1);
    case _ =>
  }

  lemma Consumes(g: Grammar, tab: Table, s: Stack, w: seq<nat>, k: nat, s1: Stack, a: nat, rest: seq<nat>)
    requires Leads(g, tab, s, w, k, s1, [a] + rest) && StepOn(g, tab, s1, a).Shifted?
    ensures Leads(g, tab, s, w, k + 1, StepOn(g, tab, s1, a).stack, rest)
  {
    var s2 := StepOn(g, tab, s1, a).stack;
    assert ([a] + rest)[1..] == rest && Leads(g, tab, s2, rest, 0, s2, rest);
    assert Leads(g, tab, s1, [a] + rest, 1, s2, rest);
    LeadsTrans(g, tab, s, w, k, s1, [a] + rest, 1, s2, rest);
  }

  /** When the parser stops without overflow, it has decided whether the machine accepts. */
  lemma Decided(g: Grammar, tab: Table, w: seq<nat>, i: nat, k: nat, s1: Stack, depth: nat, after: Stack, st: Status)
    requires i <= |w| && Leads(g, tab, Init, w + [0], k, s1, (w + [0])[i..]) && st != Consumed && st != Reducing && st != Overflow
    requires Stepped(StepOn(g, tab, s1, (w + [0])[i]), depth, s1, after, st) && (st == Accepting ==> (w + [0])[i] == 0) && IsSentence(g, w)
    ensures st == Accepting <==> Accepts(g, tab, w)
  {
    var input := w + [0];
    if st == Accepting {
      assert i == |w| && input[i..] == [0];
      assert Run(g, tab, s1, [0], 1).Some?;
      LeadsRuns(g, tab, Init, input, k, s1, [0], 1);
    } else if Accepts(g, tab, w) {
      var n: nat :| Run(g, tab, Init, input, n).Some?;
      LeadsRunBack(g, tab, Init, input, k, s1, input[i..], n);
    }
  }

  lemma NotAccepted(g: Grammar, tab: Table, w: seq<nat>, k: nat, s1: Stack)
    requires Leads(g, tab, Init, w + [0], k, s1, [])
    ensures !Accepts(g, tab, w)
  {
    if Accepts(g, tab, w) {
      var n: nat :| Run(g, tab, Init, w + [0], n).Some?;
      LeadsRunBack(g, tab, Init, w + [0], k, s1, [], n);
    }
  }

  // ---------------------------------------------------------------------------
  // Whole runs
  // ---------------------------------------------------------------------------

  /** The stack lies on a path of the automaton. */
  ghost predicate Reached(g: Grammar, m: Automaton, stack: Stack)
  {
    exists q, p :: StackOK(g, m, stack, q, p)
  }

  /** On such a stack no assertion fails, and the next stack is such a stack again; only the end of input is accepted. */
  lemma ReachedStep(g: Grammar, m: Automaton, tab: Table, stack: Stack, a: nat)
    requires g.Valid() && AutomatonOK(g, m) && TableSound(g, m, tab) && Reached(g, m, stack) && g.IsTerminal(a)
    ensures match StepOn(g, tab, stack, a)
            case Shifted(s) => Reached(g, m, s)
            case Reduced(s, r) => Reached(g, m, s)
            case Accepted(r) => a == 0
            case SyntaxError => true
            case Stuck => false
  {
    var q, p :| StackOK(g, m, stack, q, p);
    DerivesRefl(g, p);
    assert p + [] == p;
    var q', p' := StepSound(g, m, tab, stack, q, p, a, [], p);
  }

  lemma InitReached(g: Grammar, m: Automaton)
    requires AutomatonOK(g, m)
    ensures Reached(g, m, Init)
  {
    assert StackOK(g, m, Init, [0], []);
  }

  lemma TopIsKept(g: Grammar, tab: Table, so: Sorting, pk: Packed, stateno: int)
    requires Ready(g, tab, so, pk) && StatenoOK(so, pk, stateno)
    ensures TopKept(g, so, Decode(so, pk, stateno)) && TopCode(so.num, pk.nrule, Decode(so, pk, stateno)) == stateno
  {
  }

  /** A reduction that the abstract machine can make finds its goto in the packed tables. */
  lemma GotoKept(g: Grammar, tab: Table, so: Sorting, pk: Packed, stack: Stack, r: nat, stateno: int) returns (act: Act)
    requires Ready(g, tab, so, pk) && r < |g.rules| && !ReduceBy(g, tab, stack, r).Stuck?
    requires StatenoOK(so, pk, stateno) && stack[|stack| - 1 - |g.rules[r].rhs|].top == Decode(so, pk, stateno)
    ensures |g.rules[r].rhs| < |stack|
    ensures pk.count <= |pk.action| && 0 <= stateno < |pk.reduceOfst| && pk.reduceOfst[stateno] != pk.reduceUseDflt
    ensures Lookup(pk.action, pk.count, pk.reduceOfst[stateno], g.rules[r].lhs).Some?
    ensures FindReduceAction(pk, stateno, g.rules[r].lhs) == Code(so.num, pk.nrule, act) && ActKept(g, so, act)
    ensures act.Shift? || act.ShiftReduce? || act.Accept?
    ensures act.Accept? ==> |stack| - |g.rules[r].rhs| == 1 && ReduceBy(g, tab, stack, r) == Accepted(r)
    ensures !act.Accept? ==> ReduceBy(g, tab, stack, r) == Reduced(Push(stack[..|stack| - |g.rules[r].rhs|], TopFor(act), g.rules[r].lhs), r)
  {
    var base: Stack := stack[..|stack| - |g.rules[r].rhs|];
    var s := TopOf(base).id;
    assert s == so.order[stateno] && so.num[s] == stateno;
    assert g.ValidRule(g.rules[r]);
    act := GotoAct(tab, s, g.rules[r].lhs);
    FindReduceIs(g, tab, so, pk, s, g.rules[r].lhs);
  }
}
