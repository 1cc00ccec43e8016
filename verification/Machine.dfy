/**
 The parser as an abstract machine over a per-state action map.  This is the driver
 of the generated parser with table lookup replaced by map lookup: the same stack
 discipline, the same order of tests, the same assertions.
 */
module Machine {
  import opened Options
  import opened Grammars

  /** What an action number means. */
  datatype Act = Shift(st: nat) | ShiftReduce(rule: nat) | Reduce(rule: nat) | Accept | Error

  /** One row per state: symbols (and `{default}`) to actions. */
  type Table = seq<map<nat, Act>>

  /** The state number field of a stack entry: a state, or the pending reduction of a shift-reduce. */
  datatype Top = St(id: nat) | Red(rule: nat)

  datatype Entry = Entry(top: Top, major: nat)

  type Stack = s: seq<Entry> | |s| > 0 witness [Entry(St(0), 0)]

  const Init: Stack := [Entry(St(0), 0)]

  datatype Event = Shifts(token: nat) | Reduces(rule: nat)

  /** What one iteration of the parser loop does.  `Stuck` is a violated assertion of the driver. */
  datatype Outcome =
    | Shifted(stack: Stack)
    | Reduced(stack: Stack, rule: nat)
    | Accepted(rule: nat)
    | SyntaxError
    | Stuck

  /** The action on terminal `a`: the state's entry, else its default, else a syntax error. */
  function TokenAct(g: Grammar, tab: Table, top: Top, a: nat): Act
  {
    match top
    case Red(r) => Reduce(r)
    case St(s) =>
      if s >= |tab| then Error
      else if a in tab[s] then tab[s][a]
      else if g.Default() in tab[s] then tab[s][g.Default()]
      else Error
  }

  function GotoAct(tab: Table, s: nat, x: nat): Act
  {
    if s < |tab| && x in tab[s] then tab[s][x] else Error
  }

  function TopOf(stack: Stack): Top
  {
    stack[|stack| - 1].top
  }

  function Push(stack: Stack, top: Top, major: nat): Stack
  {
    stack + [Entry(top, major)]
  }

  /** Perform a reduce action and the goto that must immediately follow it. */
  function ReduceBy(g: Grammar, tab: Table, stack: Stack, r: nat): Outcome
  {
    if r >= |g.rules| || |g.rules[r].rhs| >= |stack| then Stuck
    else
      var base: Stack := stack[..|stack| - |g.rules[r].rhs|];
      match TopOf(base)
      case Red(_) => Stuck
      case St(p) =>
        match GotoAct(tab, p, g.rules[r].lhs)
        case Shift(t) => Reduced(Push(base, St(t), g.rules[r].lhs), r)
        case ShiftReduce(r2) => Reduced(Push(base, Red(r2), g.rules[r].lhs), r)
        case Accept => if |base| == 1 then Accepted(r) else Stuck
        case _ => Stuck
  }

  /** One iteration of the parser loop on lookahead `a`. */
  function StepOn(g: Grammar, tab: Table, stack: Stack, a: nat): Outcome
  {
    match TokenAct(g, tab, TopOf(stack), a)
    case Shift(t) => Shifted(Push(stack, St(t), a))
    case ShiftReduce(r) => Shifted(Push(stack, Red(r), a))
    case Reduce(r) => ReduceBy(g, tab, stack, r)
    case Error => SyntaxError
    case Accept => Stuck
  }

  function Prepend(e: Event, log: Option<seq<Event>>): Option<seq<Event>>
  {
    match log
    case None => None
    case Some(l) => Some([e] + l)
  }

  /** The log of an accepting run of at most `n` iterations, if there is one. */
  function Run(g: Grammar, tab: Table, stack: Stack, w: seq<nat>, n: nat): Option<seq<Event>>
    decreases n
  {
    if n == 0 || w == [] then None
    else
      match StepOn(g, tab, stack, w[0])
      case Shifted(s) => Prepend(Shifts(w[0]), Run(g, tab, s, w[1..], n - 1))
      case Reduced(s, r) => Prepend(Reduces(r), Run(g, tab, s, w, n - 1))
      case Accepted(r) => if |w| == 1 then Some([Reduces(r)]) else None
      case SyntaxError => None
      case Stuck => None
  }

  /** The machine accepts the sentence `w` followed by `$`. */
  ghost predicate Accepts(g: Grammar, tab: Table, w: seq<nat>)
  {
    exists n: nat :: Run(g, tab, Init, w + [0], n).Some?
  }

  /** In `k` iterations the machine goes from one stack and input to another. */
  ghost predicate Leads(g: Grammar, tab: Table, s: Stack, w: seq<nat>, k: nat, s': Stack, w': seq<nat>)
    decreases k
  {
    if k == 0 then s == s' && w == w'
    else
      w != [] &&
      match StepOn(g, tab, s, w[0])
      case Shifted(t) => Leads(g, tab, t, w[1..], k - 1, s', w')
      case Reduced(t, r) => Leads(g, tab, t, w, k - 1, s', w')
      case _ => false
  }

  lemma {:induction false} LeadsTrans(g: Grammar, tab: Table, s: Stack, w: seq<nat>, k: nat, s1: Stack, w1: seq<nat>, m: nat, s2: Stack, w2: seq<nat>)
    requires Leads(g, tab, s, w, k, s1, w1) && Leads(g, tab, s1, w1, m, s2, w2)
    ensures Leads(g, tab, s, w, k + m, s2, w2)
    decreases k
  {
    if k != 0 {
      match StepOn(g, tab, s, w[0])
      case Shifted(t) => LeadsTrans(g, tab, t, w[1..], k - 1, s1, w1, m, s2, w2);
      case Reduced(t, r) => LeadsTrans(g, tab, t, w, k - 1, s1, w1, m, s2, w2);
    }
  }

  lemma {:induction false} LeadsRuns(g: Grammar, tab: Table, s: Stack, w: seq<nat>, k: nat, s': Stack, w': seq<nat>, n: nat)
    requires Leads(g, tab, s, w, k, s', w') && Run(g, tab, s', w', n).Some?
    ensures Run(g, tab, s, w, k + n).Some?
    decreases k
  {
    if k != 0 {
      match StepOn(g, tab, s, w[0])
      case Shifted(t) => LeadsRuns(g, tab, t, w[1..], k - 1, s', w', n);
      case Reduced(t, r) => LeadsRuns(g, tab, t, w, k - 1, s', w', n);
    }
  }

  /** The machine is deterministic: an accepting run goes through every configuration it leads to. */
  lemma {:induction false} LeadsRunBack(g: Grammar, tab: Table, s: Stack, w: seq<nat>, k: nat, s': Stack, w': seq<nat>, n: nat)
    requires Leads(g, tab, s, w, k, s', w') && Run(g, tab, s, w, n).Some?
    ensures n >= k && Run(g, tab, s', w', n - k).Some?
    decreases k
  {
    if k != 0 {
      RunFirst(g, tab, s, w, n);
      var r := StepOn(g, tab, s, w[0]);
      LeadsRunBack(g, tab, r.stack, if r.Shifted? then w[1..] else w, k - 1, s', w', n - 1);
    }
  }

  lemma RunFirst(g: Grammar, tab: Table, s: Stack, w: seq<nat>, n: nat)
    requires Run(g, tab, s, w, n).Some?
    ensures n > 0 && w != []
    ensures var r := StepOn(g, tab, s, w[0]);
            && (r.Shifted? ==> Run(g, tab, r.stack, w[1..], n - 1).Some?)
            && (r.Reduced? ==> Run(g, tab, r.stack, w, n - 1).Some?)
  {
  }

  /** What the machine does before it consumes a token does not depend on the tokens after it. */
  lemma {:induction false} LeadsLift(g: Grammar, tab: Table, s: Stack, a: nat, k: nat, s': Stack, rest: seq<nat>)
    requires Leads(g, tab, s, [a], k, s', [a])
    ensures Leads(g, tab, s, [a] + rest, k, s', [a] + rest)
    decreases k
  {
    if k != 0 {
      match StepOn(g, tab, s, a)
      case Shifted(t) =>
      case Reduced(t, r) => LeadsLift(g, tab, t, a, k - 1, s', rest);
    }
  }

  /** Within `n` iterations the machine stops or has no input left. */
  ghost predicate Ends(g: Grammar, tab: Table, stack: Stack, w: seq<nat>, n: nat)
    decreases n
  {
    if w == [] then true
    else
      n > 0 &&
      match StepOn(g, tab, stack, w[0])
      case Shifted(s) => Ends(g, tab, s, w[1..], n - 1)
      case Reduced(s, r) => Ends(g, tab, s, w, n - 1)
      case _ => true
  }

  lemma {:induction false} RunEnds(g: Grammar, tab: Table, stack: Stack, w: seq<nat>, n: nat)
    requires Run(g, tab, stack, w, n).Some?
    ensures Ends(g, tab, stack, w, n)
    decreases n
  {
    match StepOn(g, tab, stack, w[0])
    case Shifted(s) => if w[1..] != [] { RunEnds(g, tab, s, w[1..], n - 1); }
    case Reduced(s, r) => RunEnds(g, tab, s, w, n - 1);
    case _ =>
  }

  /** A machine that comes back to the same stack on the same token never gets past it. */
  lemma {:induction false} RepeatNeverEnds(g: Grammar, tab: Table, s: Stack, a: nat, k: nat, n: nat)
    requires k > 0 && Leads(g, tab, s, [a], k, s, [a])
    ensures !Ends(g, tab, s, [a], n)
    decreases n
  {
    if Ends(g, tab, s, [a], n) {
      EndsAfter(g, tab, s, [a], k, s, [a], n);
      RepeatNeverEnds(g, tab, s, a, k, n - k);
    }
  }

  lemma {:induction false} EndsAfter(g: Grammar, tab: Table, s: Stack, w: seq<nat>, k: nat, s': Stack, w': seq<nat>, n: nat)
    requires Leads(g, tab, s, w, k, s', w') && Ends(g, tab, s, w, n)
    ensures w' != [] ==> n >= k && Ends(g, tab, s', w', n - k)
    decreases k
  {
    if k != 0 {
      match StepOn(g, tab, s, w[0])
      case Shifted(t) =>
        if w[1..] != [] { EndsAfter(g, tab, t, w[1..], k - 1, s', w', n - 1); }
      case Reduced(t, r) => EndsAfter(g, tab, t, w, k - 1, s', w', n - 1);
    }
  }
}
