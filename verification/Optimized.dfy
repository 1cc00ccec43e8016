/**
 What table compression preserves.  `Optimized` relates a plain table to one in which
 some reductions have become the default of their state, shifts into states that can
 only reduce have become shift-reduces, and gotos through droppable unit reductions
 have been short-circuited.  Every accepting run of the plain table is matched by the
 optimized one, with the same shifts and the same reductions except for dropped ones;
 and an optimized sound table is sound.
 */
module Optimized {
  import opened Options
  import opened Grammars
  import opened Items
  import opened Machine
  import opened Soundness

  /** For every state, the rule it reduces by on sight, if it is an auto-reduce state. */
  type Autos = seq<Option<nat>>

  function AutoOf(auto: Autos, t: nat): Option<nat>
  {
    if t < |auto| then auto[t] else None
  }

  /** A unit rule without code may disappear from a run. */
  ghost predicate Droppable(g: Grammar, drop: set<nat>, r: nat)
  {
    r in drop && r < |g.rules| && |g.rules[r].rhs| == 1 && g.rules[r].noCode
  }

  /** The goto of state `s` on `x` leads to a state that only reduces by the droppable unit rule `r`. */
  ghost predicate UnitGoto(g: Grammar, tab0: Table, auto: Autos, drop: set<nat>, s: nat, x: nat, r: nat)
  {
    && s < |tab0| && x in tab0[s] && tab0[s][x].Shift? && AutoOf(auto, tab0[s][x].st) == Some(r)
    && Droppable(g, drop, r) && g.rules[r].rhs == [x] && g.IsNonterminal(x)
  }

  /** In no state do such gotos form a cycle: each goes down in the rank of the state. */
  ghost predicate Ranked(g: Grammar, tab0: Table, auto: Autos, drop: set<nat>, rank: (nat, nat) -> nat)
  {
    forall s: nat, x: nat, r: nat | UnitGoto(g, tab0, auto, drop, s, x, r) :: rank(s, g.rules[r].lhs) < rank(s, x)
  }

  /** `a` is the shift to `t`, or the shift-reduce that replaces it. */
  predicate ShiftMatch(g: Grammar, auto: Autos, t: nat, a: Act)
  {
    match AutoOf(auto, t)
    case None => a == Shift(t)
    case Some(r) => a == ShiftReduce(r) && r < |g.rules| && g.rules[r].rhs != []
  }

  /** The goto on `x` was short-circuited: `x` is the right-hand side of a droppable unit rule. */
  ghost predicate ShortCut(g: Grammar, tab0: Table, tab: Table, auto: Autos, drop: set<nat>, s: nat, x: nat, t: nat)
    requires s < |tab0| == |tab| && x in tab[s]
  {
    match AutoOf(auto, t)
    case None => false
    case Some(r) =>
      && Droppable(g, drop, r) && g.rules[r].rhs == [x] && g.IsNonterminal(x)
      && g.rules[r].lhs in tab0[s] && tab0[s][g.rules[r].lhs].Shift?
      && g.rules[r].lhs in tab[s] && tab[s][x] == tab[s][g.rules[r].lhs]
  }

  /** An auto-reduce state has nothing but reductions by one rule. */
  ghost predicate AutoRow(g: Grammar, row: map<nat, Act>, auto: Option<nat>)
  {
    auto.Some? ==>
      && auto.value < |g.rules| && g.rules[auto.value].lhs != g.start
      && row != map[] && forall x | x in row :: row[x] == Reduce(auto.value)
  }

  /** One entry of the plain table and what the optimized table has for it. */
  ghost predicate EntryOpt(g: Grammar, tab0: Table, tab: Table, auto: Autos, drop: set<nat>, s: nat, x: nat)
    requires s < |tab0| == |tab| && x in tab0[s]
  {
    match tab0[s][x]
    case Shift(t) => x in tab[s] && (ShiftMatch(g, auto, t, tab[s][x]) || ShortCut(g, tab0, tab, auto, drop, s, x, t))
    case Reduce(r) => TokenAct(g, tab, St(s), x) == Reduce(r)
    case Accept => x in tab[s] && tab[s][x] == Accept
    case _ => false
  }

  ghost predicate RowOpt(g: Grammar, tab0: Table, tab: Table, auto: Autos, drop: set<nat>, s: nat)
  {
    && s < |tab0| == |tab| == |auto|
    && g.Default() !in tab0[s]
    && AutoRow(g, tab0[s], auto[s])
    && (forall x | x in tab0[s] :: EntryOpt(g, tab0, tab, auto, drop, s, x))
    && (forall x | x in tab[s] && x != g.Default() :: x in tab0[s])
    && (g.Default() in tab[s] ==> exists x :: x in tab0[s] && tab0[s][x].Reduce? && tab0[s][x] == tab[s][g.Default()] && tab0[s][x].rule < |g.rules| && g.rules[tab0[s][x].rule].lhs != g.start)
  }

  ghost predicate IsOptimized(g: Grammar, tab0: Table, tab: Table, auto: Autos, drop: set<nat>)
  {
    |tab0| == |tab| == |auto| && forall s: nat | s < |tab0| :: RowOpt(g, tab0, tab, auto, drop, s)
  }

  // ---------------------------------------------------------------------------
  // Matching runs
  // ---------------------------------------------------------------------------

  /** The events of a run that are not dropped reductions. */
  ghost function Keep(g: Grammar, drop: set<nat>, log: seq<Event>): seq<Event>
  {
    if log == [] then []
    else if log[0].Reduces? && Droppable(g, drop, log[0].rule) then Keep(g, drop, log[1..])
    else [log[0]] + Keep(g, drop, log[1..])
  }

  ghost predicate TopsMatch(g: Grammar, auto: Autos, top0: Top, top: Top)
  {
    top0.St? && (top == top0 || (top.Red? && AutoOf(auto, top0.id) == Some(top.rule) && top.rule < |g.rules| && g.rules[top.rule].rhs != []))
  }

  /** The optimized stack is the plain stack, except that its top may be a pending reduction. */
  ghost predicate Matched(g: Grammar, auto: Autos, stack0: Stack, stack: Stack)
  {
    && |stack0| == |stack|
    && (forall k | 0 <= k < |stack0| - 1 :: stack0[k].top.St? && stack[k].top == stack0[k].top)
    && TopsMatch(g, auto, TopOf(stack0), TopOf(stack))
  }

  lemma KeepHead(g: Grammar, drop: set<nat>, e: Event, log: seq<Event>)
    ensures Keep(g, drop, [e] + log) == if e.Reduces? && Droppable(g, drop, e.rule) then Keep(g, drop, log) else [e] + Keep(g, drop, log)
  {
    assert ([e] + log)[1..] == log;
  }

  /** What a step of a successful run looks like. */
  lemma StepInRun(g: Grammar, tab0: Table, stack0: Stack, w: seq<nat>, n: nat)
    requires Run(g, tab0, stack0, w, n).Some?
    ensures n > 0 && w != [] && !StepOn(g, tab0, stack0, w[0]).SyntaxError? && !StepOn(g, tab0, stack0, w[0]).Stuck?
    ensures TopOf(stack0).St? && TopOf(stack0).id < |tab0| && g.Default() !in tab0[TopOf(stack0).id] ==> w[0] in tab0[TopOf(stack0).id]
  {
  }

  /** The lookup that the optimized machine makes when the plain one finds a reduction. */
  lemma ReduceMatches(g: Grammar, tab0: Table, tab: Table, auto: Autos, drop: set<nat>, top0: Top, top: Top, a: nat, r: nat)
    requires IsOptimized(g, tab0, tab, auto, drop) && TopsMatch(g, auto, top0, top)
    requires top0.id < |tab0| && a in tab0[top0.id] && tab0[top0.id][a] == Reduce(r)
    ensures TokenAct(g, tab, top, a) == Reduce(r)
  {
    assert RowOpt(g, tab0, tab, auto, drop, top0.id);
    assert EntryOpt(g, tab0, tab, auto, drop, top0.id, a);
  }

  /** Both stacks hold plain states only. */
  ghost predicate SameStates(base0: Stack, base: Stack)
  {
    |base0| == |base| && forall k | 0 <= k < |base0| :: base0[k].top.St? && base[k].top == base0[k].top
  }

  /** What a shift or shift-reduce leaves on the stack. */
  function TopFor(a: Act): Top
  {
    match a
    case Shift(t) => St(t)
    case ShiftReduce(r) => Red(r)
    case _ => St(0)
  }

  predicate Pushes(a: Act) { a.Shift? || a.ShiftReduce? }

  lemma PushMatched(g: Grammar, auto: Autos, base0: Stack, base: Stack, t: nat, x: nat, a: Act, major: nat)
    requires SameStates(base0, base) && ShiftMatch(g, auto, t, a)
    ensures Pushes(a) && Matched(g, auto, Push(base0, St(t), x), Push(base, TopFor(a), major))
  {
  }

  /** The plain machine in an auto-reduce state, in a successful run: it reduces by the unit rule and goes on from below. */
  lemma UnitReduction(g: Grammar, tab0: Table, base0: Stack, p: nat, t: nat, x: nat, r: nat, t2: nat, w: seq<nat>, n: nat, log: seq<Event>)
      returns (log': seq<Event>)
    requires TopOf(base0) == St(p) && t < |tab0| && r < |g.rules| && g.rules[r].rhs == [x] && g.Default() !in tab0[t]
    requires forall y | y in tab0[t] :: tab0[t][y] == Reduce(r)
    requires p < |tab0| && g.rules[r].lhs in tab0[p] && tab0[p][g.rules[r].lhs] == Shift(t2)
    requires Run(g, tab0, Push(base0, St(t), x), w, n) == Some(log)
    ensures n > 0 && log == [Reduces(r)] + log' && Run(g, tab0, Push(base0, St(t2), g.rules[r].lhs), w, n - 1) == Some(log')
  {
    var stack := Push(base0, St(t), x);
    StepInRun(g, tab0, stack, w, n);
    assert w[0] in tab0[t] && TokenAct(g, tab0, TopOf(stack), w[0]) == Reduce(r);
    ReduceShape(g, tab0, stack, r, |base0| - 1, p);
    assert stack[..|base0|] == base0;
    assert StepOn(g, tab0, stack, w[0]) == Reduced(Push(base0, St(t2), g.rules[r].lhs), r);
    log' := Run(g, tab0, Push(base0, St(t2), g.rules[r].lhs), w, n - 1).value;
  }

  /** The optimized goto is the plain one, or it goes through a unit rule that the plain machine must reduce by. */
  lemma GotoCases(g: Grammar, tab0: Table, tab: Table, auto: Autos, drop: set<nat>, p: nat, x: nat, t: nat)
    requires IsOptimized(g, tab0, tab, auto, drop) && p < |tab0| && x in tab0[p] && tab0[p][x] == Shift(t)
    ensures |tab| == |tab0| && x in tab[p]
    ensures !ShiftMatch(g, auto, t, GotoAct(tab, p, x)) ==>
              && AutoOf(auto, t).Some? && t < |tab0| && g.Default() !in tab0[t]
              && var r := AutoOf(auto, t).value;
                 && Droppable(g, drop, r) && g.rules[r].rhs == [x] && g.IsNonterminal(x) && (forall y | y in tab0[t] :: tab0[t][y] == Reduce(r))
                 && g.rules[r].lhs in tab0[p] && tab0[p][g.rules[r].lhs].Shift?
                 && GotoAct(tab, p, x) == GotoAct(tab, p, g.rules[r].lhs)
  {
    assert RowOpt(g, tab0, tab, auto, drop, p) && EntryOpt(g, tab0, tab, auto, drop, p, x);
    if !ShiftMatch(g, auto, t, tab[p][x]) {
      assert RowOpt(g, tab0, tab, auto, drop, t);
    }
  }

  /**
   After a reduction to `x`: the optimized machine makes one goto; the plain machine
   may first make the droppable unit reductions that the goto short-circuits.
   */
  lemma {:induction false} GotoMatches(g: Grammar, tab0: Table, tab: Table, auto: Autos, drop: set<nat>,
                                       base0: Stack, base: Stack, p: nat, x: nat, t: nat, w: seq<nat>, n: nat, log: seq<Event>)
      returns (stack0: Stack, n': nat, log': seq<Event>)
    requires IsOptimized(g, tab0, tab, auto, drop) && SameStates(base0, base) && TopOf(base0) == St(p) && p < |tab0|
    requires x in tab0[p] && tab0[p][x] == Shift(t) && Run(g, tab0, Push(base0, St(t), x), w, n) == Some(log)
    ensures Pushes(GotoAct(tab, p, x))
    ensures forall major :: Matched(g, auto, stack0, Push(base, TopFor(GotoAct(tab, p, x)), major))
    ensures n' <= n && Run(g, tab0, stack0, w, n') == Some(log') && Keep(g, drop, log') == Keep(g, drop, log)
    decreases n
  {
    GotoCases(g, tab0, tab, auto, drop, p, x, t);
    var a := GotoAct(tab, p, x);
    if ShiftMatch(g, auto, t, a) {
      stack0, n', log' := Push(base0, St(t), x), n, log;
      forall major: nat ensures Pushes(a) && Matched(g, auto, stack0, Push(base, TopFor(a), major)) {
        PushMatched(g, auto, base0, base, t, x, a, major);
      }
    } else {
      var r := AutoOf(auto, t).value;
      var t2 := tab0[p][g.rules[r].lhs].st;
      var log1 := UnitReduction(g, tab0, base0, p, t, x, r, t2, w, n, log);
      KeepHead(g, drop, Reduces(r), log1);
      stack0, n', log' := GotoMatches(g, tab0, tab, auto, drop, base0, base, p, g.rules[r].lhs, t2, w, n - 1, log1);
    }
  }

  /** The plain machine shifts: so does the optimized one, to a matching stack. */
  lemma ShiftMatches(g: Grammar, tab0: Table, tab: Table, auto: Autos, drop: set<nat>, stack0: Stack, stack: Stack, a: nat, t: nat)
    requires IsOptimized(g, tab0, tab, auto, drop) && Matched(g, auto, stack0, stack) && g.IsTerminal(a)
    requires TokenAct(g, tab0, TopOf(stack0), a) == Shift(t)
    ensures StepOn(g, tab, stack, a).Shifted? && Matched(g, auto, Push(stack0, St(t), a), StepOn(g, tab, stack, a).stack)
  {
    var s := TopOf(stack0).id;
    assert RowOpt(g, tab0, tab, auto, drop, s);
    assert a in tab0[s] && EntryOpt(g, tab0, tab, auto, drop, s, a);
    assert TopOf(stack) == St(s);
    PushMatched(g, auto, stack0, stack, t, a, tab[s][a], a);
  }

  lemma BasesMatch(g: Grammar, auto: Autos, stack0: Stack, stack: Stack, r: nat)
    requires Matched(g, auto, stack0, stack) && r < |g.rules| && |g.rules[r].rhs| < |stack0|
    requires TopOf(stack).Red? ==> TopOf(stack).rule == r
    ensures SameStates(stack0[..|stack0| - |g.rules[r].rhs|], stack[..|stack0| - |g.rules[r].rhs|])
  {
  }

  /** Both machines pop the same right-hand side and look up the same goto. */
  lemma PopsMatch(g: Grammar, tab0: Table, tab: Table, auto: Autos, drop: set<nat>, stack0: Stack, stack: Stack, a: nat, r: nat)
      returns (k: nat, p: nat)
    requires IsOptimized(g, tab0, tab, auto, drop) && Matched(g, auto, stack0, stack)
    requires TopOf(stack0).id < |tab0| && a in tab0[TopOf(stack0).id] && TokenAct(g, tab0, TopOf(stack0), a) == Reduce(r)
    requires r < |g.rules| && |g.rules[r].rhs| < |stack0|
    ensures k + |g.rules[r].rhs| + 1 == |stack0| && stack0[k].top == St(p) && stack[k].top == St(p)
    ensures SameStates(stack0[..k + 1], stack[..k + 1])
    ensures TokenAct(g, tab, TopOf(stack), a) == Reduce(r)
  {
    ReduceMatches(g, tab0, tab, auto, drop, TopOf(stack0), TopOf(stack), a, r);
    BasesMatch(g, auto, stack0, stack, r);
    k := |stack0| - |g.rules[r].rhs| - 1;
    assert stack0[..k + 1][k] == stack0[k] && stack[..k + 1][k] == stack[k];
    p := stack0[k].top.id;
  }

  /** The shape of a plain reduction step. */
  lemma PlainReduction(g: Grammar, tab0: Table, tab: Table, auto: Autos, drop: set<nat>, stack0: Stack, a: nat)
      returns (r: nat)
    requires IsOptimized(g, tab0, tab, auto, drop) && TopOf(stack0).St?
    requires StepOn(g, tab0, stack0, a).Reduced? || StepOn(g, tab0, stack0, a).Accepted?
    ensures TopOf(stack0).id < |tab0| && a in tab0[TopOf(stack0).id] && TokenAct(g, tab0, TopOf(stack0), a) == Reduce(r)
    ensures r < |g.rules| && |g.rules[r].rhs| < |stack0| && StepOn(g, tab0, stack0, a).rule == r
    ensures StepOn(g, tab0, stack0, a) == ReduceBy(g, tab0, stack0, r)
  {
    r := StepOn(g, tab0, stack0, a).rule;
    assert TopOf(stack0).id < |tab0|;
    assert RowOpt(g, tab0, tab, auto, drop, TopOf(stack0).id);
  }

  /** The plain machine reduces, in a successful run: the optimized one reduces by the same rule, and the runs go on from matching stacks. */
  lemma ReduceStepMatches(g: Grammar, tab0: Table, tab: Table, auto: Autos, drop: set<nat>, stack0: Stack, stack: Stack, w: seq<nat>, n: nat, log: seq<Event>)
      returns (stack2: Stack, n': nat, log': seq<Event>)
    requires IsOptimized(g, tab0, tab, auto, drop) && Matched(g, auto, stack0, stack) && w != []
    requires StepOn(g, tab0, stack0, w[0]).Reduced? && Run(g, tab0, StepOn(g, tab0, stack0, w[0]).stack, w, n) == Some(log)
    ensures StepOn(g, tab, stack, w[0]).Reduced? && StepOn(g, tab, stack, w[0]).rule == StepOn(g, tab0, stack0, w[0]).rule
    ensures n' <= n && Run(g, tab0, stack2, w, n') == Some(log') && Matched(g, auto, stack2, StepOn(g, tab, stack, w[0]).stack)
    ensures Keep(g, drop, log') == Keep(g, drop, log)
  {
    var r := PlainReduction(g, tab0, tab, auto, drop, stack0, w[0]);
    var k, p := PopsMatch(g, tab0, tab, auto, drop, stack0, stack, w[0], r);
    ReduceShape(g, tab0, stack0, r, k, p);
    ReduceShape(g, tab, stack, r, k, p);
    var t := PlainGoto(g, tab0, tab, auto, drop, p, g.rules[r].lhs);
    stack2, n', log' := GotoMatches(g, tab0, tab, auto, drop, stack0[..k + 1], stack[..k + 1], p, g.rules[r].lhs, t, w, n, log);
    var pushed := Push(stack[..k + 1], TopFor(GotoAct(tab, p, g.rules[r].lhs)), g.rules[r].lhs);
    assert Matched(g, auto, stack2, pushed);
    assert StepOn(g, tab, stack, w[0]) == Reduced(pushed, r);
  }

  /** The plain machine accepts: so does the optimized one, by the same rule. */
  lemma AcceptMatches(g: Grammar, tab0: Table, tab: Table, auto: Autos, drop: set<nat>, stack0: Stack, stack: Stack, a: nat)
    requires IsOptimized(g, tab0, tab, auto, drop) && Matched(g, auto, stack0, stack) && StepOn(g, tab0, stack0, a).Accepted?
    ensures StepOn(g, tab, stack, a) == StepOn(g, tab0, stack0, a)
  {
    var r := PlainReduction(g, tab0, tab, auto, drop, stack0, a);
    var k, p := PopsMatch(g, tab0, tab, auto, drop, stack0, stack, a, r);
    ReduceShape(g, tab0, stack0, r, k, p);
    ReduceShape(g, tab, stack, r, k, p);
    assert GotoAct(tab0, p, g.rules[r].lhs) == Accept;
    assert RowOpt(g, tab0, tab, auto, drop, p) && EntryOpt(g, tab0, tab, auto, drop, p, g.rules[r].lhs);
  }

  /**
   Table rewriting preserves meaning: every accepting run of the plain table is matched
   by an accepting run of the optimized table with the same events, except that
   reductions by droppable unit rules may be missing.
   */
  lemma {:induction false} RunMatches(g: Grammar, tab0: Table, tab: Table, auto: Autos, drop: set<nat>,
                                      stack0: Stack, stack: Stack, w: seq<nat>, n: nat) returns (m: nat)
    requires IsOptimized(g, tab0, tab, auto, drop) && Matched(g, auto, stack0, stack)
    requires (forall i | 0 <= i < |w| :: g.IsTerminal(w[i])) && Run(g, tab0, stack0, w, n).Some?
    ensures m <= n && Run(g, tab, stack, w, m).Some?
    ensures Keep(g, drop, Run(g, tab, stack, w, m).value) == Keep(g, drop, Run(g, tab0, stack0, w, n).value)
    decreases n
  {
    match StepOn(g, tab0, stack0, w[0]) {
      case Shifted(stack1) =>
        ShiftStep(g, tab0, tab, auto, drop, stack0, stack, w[0]);
        m := RunMatches(g, tab0, tab, auto, drop, stack1, StepOn(g, tab, stack, w[0]).stack, w[1..], n - 1);
        ShiftedRun(g, tab0, tab, drop, stack0, stack, w, n, m);
        m := m + 1;
      case Reduced(stack1, r) =>
        var stack2, n', log' := ReduceStepMatches(g, tab0, tab, auto, drop, stack0, stack, w, n - 1, Run(g, tab0, stack1, w, n - 1).value);
        m := RunMatches(g, tab0, tab, auto, drop, stack2, StepOn(g, tab, stack, w[0]).stack, w, n');
        ReducedRun(g, tab0, tab, drop, stack0, stack, w, n, m, log');
        m := m + 1;
      case Accepted(r) =>
        AcceptMatches(g, tab0, tab, auto, drop, stack0, stack, w[0]);
        m := 1;
        AcceptedRun(g, tab0, stack0, w, n);
        AcceptedRun(g, tab, stack, w, m);
    }
  }

  /** The machine makes a run whose kept events are `log`. */
  ghost predicate RunKeeps(g: Grammar, tab: Table, drop: set<nat>, stack: Stack, w: seq<nat>, n: nat, log: seq<Event>)
  {
    Run(g, tab, stack, w, n).Some? && Keep(g, drop, Run(g, tab, stack, w, n).value) == log
  }

  /** Runs that match after a shift match with it. */
  lemma ShiftedRun(g: Grammar, tab0: Table, tab: Table, drop: set<nat>, stack0: Stack, stack: Stack, w: seq<nat>, n: nat, m: nat)
    requires n > 0 && w != [] && StepOn(g, tab0, stack0, w[0]).Shifted? && StepOn(g, tab, stack, w[0]).Shifted?
    requires Run(g, tab0, StepOn(g, tab0, stack0, w[0]).stack, w[1..], n - 1).Some?
    requires RunKeeps(g, tab, drop, StepOn(g, tab, stack, w[0]).stack, w[1..], m, Keep(g, drop, Run(g, tab0, StepOn(g, tab0, stack0, w[0]).stack, w[1..], n - 1).value))
    ensures Run(g, tab0, stack0, w, n).Some? && RunKeeps(g, tab, drop, stack, w, m + 1, Keep(g, drop, Run(g, tab0, stack0, w, n).value))
  {
    KeepStep(g, drop, tab0, stack0, w, n);
    KeepStep(g, drop, tab, stack, w, m + 1);
  }

  /** Runs that match after a reduction match with it. */
  lemma ReducedRun(g: Grammar, tab0: Table, tab: Table, drop: set<nat>, stack0: Stack, stack: Stack, w: seq<nat>, n: nat, m: nat, log: seq<Event>)
    requires n > 0 && w != [] && StepOn(g, tab0, stack0, w[0]).Reduced? && StepOn(g, tab, stack, w[0]).Reduced?
    requires StepOn(g, tab0, stack0, w[0]).rule == StepOn(g, tab, stack, w[0]).rule
    requires RunKeeps(g, tab0, drop, StepOn(g, tab0, stack0, w[0]).stack, w, n - 1, Keep(g, drop, log))
    requires RunKeeps(g, tab, drop, StepOn(g, tab, stack, w[0]).stack, w, m, Keep(g, drop, log))
    ensures Run(g, tab0, stack0, w, n).Some? && RunKeeps(g, tab, drop, stack, w, m + 1, Keep(g, drop, Run(g, tab0, stack0, w, n).value))
  {
    KeepStep(g, drop, tab0, stack0, w, n);
    KeepStep(g, drop, tab, stack, w, m + 1);
  }

  lemma AcceptedRun(g: Grammar, tab: Table, stack: Stack, w: seq<nat>, n: nat)
    requires n > 0 && w != [] && StepOn(g, tab, stack, w[0]).Accepted?
    ensures Run(g, tab, stack, w, n) == if |w| == 1 then Some([Reduces(StepOn(g, tab, stack, w[0]).rule)]) else None
  {
  }

  /** The kept events of a run, from those of its continuation. */
  lemma KeepStep(g: Grammar, drop: set<nat>, tab: Table, stack: Stack, w: seq<nat>, n: nat)
    requires n > 0 && w != []
    ensures match StepOn(g, tab, stack, w[0])
            case Shifted(s) =>
              Run(g, tab, s, w[1..], n - 1).Some? ==>
                && Run(g, tab, stack, w, n).Some?
                && Keep(g, drop, Run(g, tab, stack, w, n).value) == [Shifts(w[0])] + Keep(g, drop, Run(g, tab, s, w[1..], n - 1).value)
            case Reduced(s, r) =>
              Run(g, tab, s, w, n - 1).Some? ==>
                && Run(g, tab, stack, w, n).Some?
                && Keep(g, drop, Run(g, tab, stack, w, n).value) ==
                   if Droppable(g, drop, r) then Keep(g, drop, Run(g, tab, s, w, n - 1).value) else [Reduces(r)] + Keep(g, drop, Run(g, tab, s, w, n - 1).value)
            case _ => true
  {
    match StepOn(g, tab, stack, w[0])
    case Shifted(s) =>
      if Run(g, tab, s, w[1..], n - 1).Some? { KeepHead(g, drop, Shifts(w[0]), Run(g, tab, s, w[1..], n - 1).value); }
    case Reduced(s, r) =>
      if Run(g, tab, s, w, n - 1).Some? { KeepHead(g, drop, Reduces(r), Run(g, tab, s, w, n - 1).value); }
    case _ =>
  }

  lemma ShiftStep(g: Grammar, tab0: Table, tab: Table, auto: Autos, drop: set<nat>, stack0: Stack, stack: Stack, a: nat)
    requires IsOptimized(g, tab0, tab, auto, drop) && Matched(g, auto, stack0, stack) && g.IsTerminal(a)
    requires StepOn(g, tab0, stack0, a).Shifted?
    ensures StepOn(g, tab, stack, a).Shifted? && Matched(g, auto, StepOn(g, tab0, stack0, a).stack, StepOn(g, tab, stack, a).stack)
  {
    var s := TopOf(stack0).id;
    assert RowOpt(g, tab0, tab, auto, drop, s);
    assert a in tab0[s] && EntryOpt(g, tab0, tab, auto, drop, s, a);
    ShiftMatches(g, tab0, tab, auto, drop, stack0, stack, a, tab0[s][a].st);
  }

  /** With nothing to drop, the kept events are all events. */
  lemma {:induction false} KeepAll(g: Grammar, log: seq<Event>)
    ensures Keep(g, {}, log) == log
  {
    if log != [] { KeepAll(g, log[1..]); }
  }

  /** The accepting run on `w` has a counterpart with the same events, apart from dropped reductions. */
  ghost predicate RunKept(g: Grammar, tab0: Table, tab: Table, drop: set<nat>, w: seq<nat>, n: nat)
    requires Run(g, tab0, Init, w, n).Some?
  {
    exists k: nat :: k <= n && Run(g, tab, Init, w, k).Some? && SameWork(g, drop, Run(g, tab, Init, w, k).value, Run(g, tab0, Init, w, n).value)
  }

  /** The rules with code by which a run reduces, in order. */
  ghost function CodeOf(g: Grammar, log: seq<Event>): seq<nat>
  {
    if log == [] then []
    else (if log[0].Reduces? && log[0].rule < |g.rules| && !g.rules[log[0].rule].noCode then [log[0].rule] else []) + CodeOf(g, log[1..])
  }

  /** The runs differ in droppable reductions only, so the same code is executed in the same order. */
  ghost predicate SameWork(g: Grammar, drop: set<nat>, a: seq<Event>, b: seq<Event>)
  {
    Keep(g, drop, a) == Keep(g, drop, b) && CodeOf(g, a) == CodeOf(g, b)
  }

  lemma {:induction false} KeepKeepsCode(g: Grammar, drop: set<nat>, log: seq<Event>)
    ensures CodeOf(g, Keep(g, drop, log)) == CodeOf(g, log)
  {
    if log != [] {
      KeepKeepsCode(g, drop, log[1..]);
      if !(log[0].Reduces? && Droppable(g, drop, log[0].rule)) { assert ([log[0]] + Keep(g, drop, log[1..]))[1..] == Keep(g, drop, log[1..]); }
    }
  }

  /** Every accepting run is kept. */
  ghost predicate KeepsRuns(g: Grammar, tab0: Table, tab: Table, drop: set<nat>)
  {
    forall w: seq<nat>, n: nat | (forall i | 0 <= i < |w| :: g.IsTerminal(w[i])) && Run(g, tab0, Init, w, n).Some? :: RunKept(g, tab0, tab, drop, w, n)
  }

  lemma OptimizedKeepsRuns(g: Grammar, tab0: Table, tab: Table, auto: Autos, drop: set<nat>)
    requires IsOptimized(g, tab0, tab, auto, drop)
    ensures KeepsRuns(g, tab0, tab, drop)
  {
    forall w: seq<nat>, n: nat | (forall i | 0 <= i < |w| :: g.IsTerminal(w[i])) && Run(g, tab0, Init, w, n).Some?
      ensures RunKept(g, tab0, tab, drop, w, n)
    {
      var k := RunMatches(g, tab0, tab, auto, drop, Init, Init, w, n);
      KeepKeepsCode(g, drop, Run(g, tab, Init, w, k).value);
      KeepKeepsCode(g, drop, Run(g, tab0, Init, w, n).value);
    }
  }

  lemma PlainGoto(g: Grammar, tab0: Table, tab: Table, auto: Autos, drop: set<nat>, p: nat, x: nat) returns (t: nat)
    requires IsOptimized(g, tab0, tab, auto, drop) && Pushes(GotoAct(tab0, p, x))
    ensures p < |tab0| && x in tab0[p] && tab0[p][x] == Shift(t)
  {
    assert RowOpt(g, tab0, tab, auto, drop, p) && EntryOpt(g, tab0, tab, auto, drop, p, x);
    t := tab0[p][x].st;
  }

  // ---------------------------------------------------------------------------
  // Soundness of the optimized table
  // ---------------------------------------------------------------------------

  /** The rule of an auto-reduce state that is entered by a shift may be made part of that shift. */
  lemma AutoPending(g: Grammar, m: Automaton, tab0: Table, tab: Table, auto: Autos, drop: set<nat>, t: nat)
    requires TableSound(g, m, tab0) && IsOptimized(g, tab0, tab, auto, drop) && AutoOf(auto, t).Some?
    ensures Reducible(g, m, t, AutoOf(auto, t).value) && g.rules[AutoOf(auto, t).value].lhs != g.start
  {
    assert RowOpt(g, tab0, tab, auto, drop, t) && RowSound(g, m, tab0, t);
    var x :| x in tab0[t];
    assert EntrySound(g, m, t, x, tab0[t][x]);
  }

  /** An optimized shift or goto is justified by the automaton. */
  lemma {:induction false} ShiftEntryOpt(g: Grammar, m: Automaton, tab0: Table, tab: Table, auto: Autos, drop: set<nat>, rank: (nat, nat) -> nat, s: nat, x: nat)
    requires TableSound(g, m, tab0) && IsOptimized(g, tab0, tab, auto, drop) && Ranked(g, tab0, auto, drop, rank)
    requires s < |tab0| && x in tab0[s] && tab0[s][x].Shift?
    ensures x in tab[s] && Pushes(tab[s][x]) && EntrySound(g, m, s, x, tab[s][x])
    decreases rank(s, x)
  {
    var t := tab0[s][x].st;
    GotoCases(g, tab0, tab, auto, drop, s, x, t);
    assert RowSound(g, m, tab0, s) && EntrySound(g, m, s, x, tab0[s][x]);
    var y: nat :| Derives(g, [y], [x]) && m.Goes(s, y, t);
    if ShiftMatch(g, auto, t, tab[s][x]) {
      if tab[s][x].ShiftReduce? {
        AutoPending(g, m, tab0, tab, auto, drop, t);
        assert Derives(g, [y], [x]) && m.Goes(s, y, t) && Pending(g, m, t, tab[s][x].rule);
      }
    } else {
      var r := AutoOf(auto, t).value;
      var lhs := g.rules[r].lhs;
      assert UnitGoto(g, tab0, auto, drop, s, x, r);
      ShiftEntryOpt(g, m, tab0, tab, auto, drop, rank, s, lhs);
      ThroughUnit(g, m, s, r, tab[s][lhs]);
    }
  }

  lemma ThroughUnit(g: Grammar, m: Automaton, s: nat, r: nat, a: Act)
    requires r < |g.rules| && |g.rules[r].rhs| == 1 && Pushes(a) && EntrySound(g, m, s, g.rules[r].lhs, a)
    ensures EntrySound(g, m, s, g.rules[r].rhs[0], a)
  {
    var lhs, x := g.rules[r].lhs, g.rules[r].rhs[0];
    DerivesRule(g, r);
    assert g.rules[r].rhs == [x];
    if a.Shift? {
      var y: nat :| Derives(g, [y], [lhs]) && m.Goes(s, y, a.st);
      DerivesTrans(g, [y], [lhs], [x]);
      assert Derives(g, [y], [x]) && m.Goes(s, y, a.st);
    } else {
      var y: nat, t: nat :| Derives(g, [y], [lhs]) && m.Goes(s, y, t) && Pending(g, m, t, a.rule);
      DerivesTrans(g, [y], [lhs], [x]);
      assert Derives(g, [y], [x]) && m.Goes(s, y, t) && Pending(g, m, t, a.rule);
    }
  }

  lemma EntryOptSound(g: Grammar, m: Automaton, tab0: Table, tab: Table, auto: Autos, drop: set<nat>, rank: (nat, nat) -> nat, s: nat, x: nat)
    requires TableSound(g, m, tab0) && IsOptimized(g, tab0, tab, auto, drop) && Ranked(g, tab0, auto, drop, rank)
    requires s < |tab| && x in tab[s]
    ensures EntrySound(g, m, s, x, tab[s][x])
    ensures x == g.Default() ==> tab[s][x].Reduce?
  {
    assert RowOpt(g, tab0, tab, auto, drop, s) && RowSound(g, m, tab0, s);
    if x == g.Default() {
      var y :| y in tab0[s] && tab0[s][y].Reduce? && tab0[s][y] == tab[s][g.Default()] && g.rules[tab0[s][y].rule].lhs != g.start;
      assert EntrySound(g, m, s, y, tab0[s][y]);
    } else {
      assert EntryOpt(g, tab0, tab, auto, drop, s, x) && EntrySound(g, m, s, x, tab0[s][x]);
      if tab0[s][x].Shift? {
        ShiftEntryOpt(g, m, tab0, tab, auto, drop, rank, s, x);
      }
    }
  }

  /** Compression keeps the table sound. */
  lemma OptimizedSound(g: Grammar, m: Automaton, tab0: Table, tab: Table, auto: Autos, drop: set<nat>, rank: (nat, nat) -> nat)
    requires TableSound(g, m, tab0) && IsOptimized(g, tab0, tab, auto, drop) && Ranked(g, tab0, auto, drop, rank)
    requires |m.bases| == |m.go|
    ensures TableSound(g, m, tab)
  {
    forall s: nat | s < |tab| ensures RowSound(g, m, tab, s) {
      forall x: nat | x in tab[s] ensures EntrySound(g, m, s, x, tab[s][x]) && (x == g.Default() ==> tab[s][x].Reduce?) {
        EntryOptSound(g, m, tab0, tab, auto, drop, rank, s, x);
      }
      forall x: nat | g.IsNonterminal(x) && x in m.go[s] ensures x in tab[s] && Pushes(tab[s][x]) {
        assert RowSound(g, m, tab0, s) && RowOpt(g, tab0, tab, auto, drop, s) && EntryOpt(g, tab0, tab, auto, drop, s, x);
        ShiftEntryOpt(g, m, tab0, tab, auto, drop, rank, s, x);
      }
    }
    assert RowOpt(g, tab0, tab, auto, drop, 0) && EntryOpt(g, tab0, tab, auto, drop, 0, g.start);
  }

  // ---------------------------------------------------------------------------
  // The uncompressed table
  // ---------------------------------------------------------------------------

  /** The basis of a state is the start basis, or every item in it has been moved over a symbol. */
  ghost predicate ProperBasis(g: Grammar, b: set<Item>)
  {
    b == StartBasis(g) || forall it | it in b :: it.dot > 0
  }

  ghost predicate PlainRow(g: Grammar, m: Automaton, tab: Table, s: nat)
  {
    && s < |tab| == |m.bases| == |m.go|
    && g.Default() !in tab[s]
    && ProperBasis(g, m.bases[s])
    && (forall x | x in tab[s] :: tab[s][x].Shift? || tab[s][x].Reduce? || tab[s][x].Accept?)
    && (forall x | x in tab[s] && tab[s][x].Shift? :: m.Goes(s, x, tab[s][x].st))
    && (forall x | g.IsNonterminal(x) && x in m.go[s] :: x in tab[s] && tab[s][x].Shift?)
  }

  /** A table straight from the automaton: shifts are its transitions, everything else reduces or accepts. */
  ghost predicate PlainTable(g: Grammar, m: Automaton, tab: Table)
  {
    && g.Valid() && AutomatonOK(g, m) && TableSound(g, m, tab)
    && forall s: nat | s < |tab| :: PlainRow(g, m, tab, s)
  }

  /** A rule that is not a start rule and whose initial item is in state `s`: the state shifts its left-hand side. */
  lemma InitialShift(g: Grammar, m: Automaton, tab: Table, s: nat, r: nat)
    requires PlainTable(g, m, tab) && s < |tab| && r < |g.rules| && Item(r, 0) in m.Cl(g, s) && g.rules[r].lhs != g.start
    ensures g.IsNonterminal(g.rules[r].lhs) && g.rules[r].lhs in tab[s] && tab[s][g.rules[r].lhs].Shift?
  {
    assert StateGoOK(g, m, s) && PlainRow(g, m, tab, s) && g.ValidRule(g.rules[r]);
    ClosureOrigin(g, m.bases[s], Item(r, 0));
    assert Item(r, 0) !in m.bases[s];
    var it :| it in m.Cl(g, s) && Calls(g, it, r);
    KernelItems(g, m.Cl(g, s), g.rules[r].lhs);
    assert Advance(it) in Kernel(g, m.Cl(g, s), g.rules[r].lhs);
  }

  /** A state that only reduces, by a rule that is not a start rule: the rule is not empty, and the state is not the first one. */
  lemma OnlyReducing(g: Grammar, m: Automaton, tab: Table, s: nat, r: nat, a: nat)
    requires PlainTable(g, m, tab) && s < |tab| && a in tab[s] && tab[s][a] == Reduce(r)
    requires forall x | x in tab[s] :: !tab[s][x].Shift?
    requires r < |g.rules| && g.rules[r].lhs != g.start
    ensures g.rules[r].rhs != [] && s != 0
  {
    assert RowSound(g, m, tab, s) && EntrySound(g, m, s, a, tab[s][a]);
    var it := Item(r, |g.rules[r].rhs|);
    if g.rules[r].rhs == [] {
      InitialShift(g, m, tab, s, r);
    } else if s == 0 {
      assert StateGoOK(g, m, 0);
      ClosureOrigin(g, m.bases[0], it);
    }
  }

  /** The unit rule reduced in the successor on `x`: it is `lhs ::= x`, and the state shifts `lhs` too. */
  lemma UnitOfGoto(g: Grammar, m: Automaton, tab: Table, s: nat, x: nat, r: nat)
    requires PlainTable(g, m, tab) && s < |tab| && x in tab[s] && tab[s][x].Shift?
    requires Reducible(g, m, tab[s][x].st, r) && |g.rules[r].rhs| == 1 && g.rules[r].lhs != g.start
    ensures g.rules[r].rhs == [x]
    ensures g.IsNonterminal(g.rules[r].lhs) && g.rules[r].lhs in tab[s] && tab[s][g.rules[r].lhs].Shift?
  {
    assert PlainRow(g, m, tab, s);
    MovedItem(g, m, s, x, tab[s][x].st, r);
    InitialShift(g, m, tab, s, r);
  }

  lemma MovedItem(g: Grammar, m: Automaton, s: nat, x: nat, t: nat, r: nat)
    requires AutomatonOK(g, m) && m.Goes(s, x, t) && Item(r, 1) in m.Cl(g, t)
    ensures Item(r, 0) in m.Cl(g, s) && HasNext(g, Item(r, 0), x)
  {
    assert StateGoOK(g, m, s) && StateGoOK(g, m, t);
    ClosureOrigin(g, m.bases[t], Item(r, 1));
    KernelItems(g, m.Cl(g, s), x);
  }

  /** An optimized table never shifts to an auto-reduce state. */
  lemma {:induction false} ShiftsArePlain(g: Grammar, tab0: Table, tab: Table, auto: Autos, drop: set<nat>, rank: (nat, nat) -> nat, s: nat, x: nat)
    requires IsOptimized(g, tab0, tab, auto, drop) && Ranked(g, tab0, auto, drop, rank) && s < |tab| && x in tab[s] && tab[s][x].Shift?
    ensures AutoOf(auto, tab[s][x].st) == None
    decreases rank(s, x)
  {
    assert RowOpt(g, tab0, tab, auto, drop, s);
    if x != g.Default() {
      assert EntryOpt(g, tab0, tab, auto, drop, s, x);
      if tab0[s][x].Shift? && !ShiftMatch(g, auto, tab0[s][x].st, tab[s][x]) {
        var r := AutoOf(auto, tab0[s][x].st).value;
        assert UnitGoto(g, tab0, auto, drop, s, x, r);
        ShiftsArePlain(g, tab0, tab, auto, drop, rank, s, g.rules[r].lhs);
      }
    }
  }
}
