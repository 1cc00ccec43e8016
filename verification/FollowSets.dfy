/**
 `FindLinks` and `FindFollowSets`: turn the recorded back links into forward links and
 propagate follow sets along them until nothing changes.  The final follow set of a
 configuration is exactly the union of the initial sets of all configurations that
 reach it.
 */
module FollowSets {
  import opened Grammars
  import opened States

  type Links = map<Config, set<Config>>
  type Sets = map<Config, set<nat>>

  /** Following `n` forward links from `a` can lead to `b`. */
  ghost predicate ReachIn(fplp: Links, a: Config, b: Config, n: nat)
    decreases n
  {
    if n == 0 then a == b else exists c :: ReachIn(fplp, a, c, n - 1) && c in fplp && b in fplp[c]
  }

  ghost predicate Reaches(fplp: Links, a: Config, b: Config)
  {
    exists n: nat :: ReachIn(fplp, a, b, n)
  }

  /** Some configuration that starts out with `t` reaches `c`. */
  ghost predicate Arrives(fplp: Links, init: Sets, c: Config, t: nat)
  {
    exists a :: a in init && t in init[a] && Reaches(fplp, a, c)
  }

  ghost predicate Supported(fplp: Links, init: Sets, cur: Sets)
  {
    forall c, t: nat | c in cur && t in cur[c] :: Arrives(fplp, init, c, t)
  }

  ghost predicate Grown(init: Sets, cur: Sets)
  {
    cur.Keys == init.Keys && forall c | c in init :: init[c] <= cur[c]
  }

  /** Everything in the follow set of `c` has been passed to its link targets. */
  ghost predicate Passed(fplp: Links, cur: Sets, c: Config)
  {
    c in cur && c in fplp && forall d | d in fplp[c] :: d in cur && cur[c] <= cur[d]
  }

  ghost predicate LinksStay(fplp: Links, init: Sets)
  {
    fplp.Keys == init.Keys && forall c | c in fplp :: fplp[c] <= init.Keys
  }

  lemma ArrivesNext(fplp: Links, init: Sets, c: Config, d: Config, t: nat)
    requires Arrives(fplp, init, c, t) && c in fplp && d in fplp[c]
    ensures Arrives(fplp, init, d, t)
  {
    var a :| a in init && t in init[a] && Reaches(fplp, a, c);
    var n: nat :| ReachIn(fplp, a, c, n);
    assert ReachIn(fplp, a, d, n + 1);
  }

  lemma {:induction false} PassedReaches(fplp: Links, init: Sets, cur: Sets, a: Config, b: Config, n: nat)
    requires Grown(init, cur) && (forall c | c in cur :: Passed(fplp, cur, c))
    requires a in init && ReachIn(fplp, a, b, n)
    ensures b in cur && init[a] <= cur[b]
    decreases n
  {
    if n != 0 {
      var c :| ReachIn(fplp, a, c, n - 1) && c in fplp && b in fplp[c];
      PassedReaches(fplp, init, cur, a, c, n - 1);
      assert Passed(fplp, cur, c);
    }
  }

  /** At the fixpoint the sets are exactly what arrives. */
  lemma FixpointIsReachability(fplp: Links, init: Sets, cur: Sets)
    requires Grown(init, cur) && Supported(fplp, init, cur) && forall c | c in cur :: Passed(fplp, cur, c)
    ensures forall c, t: nat | c in cur :: t in cur[c] <==> Arrives(fplp, init, c, t)
  {
    forall c, t: nat | c in cur && Arrives(fplp, init, c, t) ensures t in cur[c] {
      var a :| a in init && t in init[a] && Reaches(fplp, a, c);
      var n: nat :| ReachIn(fplp, a, c, n);
      PassedReaches(fplp, init, cur, a, c, n);
    }
  }

  // ---------------------------------------------------------------------------
  // The status-driven loop
  // ---------------------------------------------------------------------------

  ghost function MissingPairs(nt: nat, cur: Sets): set<(Config, nat)>
  {
    set c, t: nat | c in cur.Keys && t < nt && t !in cur[c] :: (c, t)
  }

  ghost predicate Bounded(nt: nat, cur: Sets)
  {
    forall c, t: nat | c in cur && t in cur[c] :: t < nt
  }

  lemma MissingPairsShrink(nt: nat, a: Sets, b: Sets)
    requires Grown(a, b) && a != b && Bounded(nt, b)
    ensures MissingPairs(nt, b) < MissingPairs(nt, a)
  {
    assert MissingPairs(nt, b) <= MissingPairs(nt, a);
    var c :| c in a && a[c] != b[c];
    var t :| t in b[c] && t !in a[c];
    assert t < nt;
    assert (c, t) in MissingPairs(nt, a) && (c, t) !in MissingPairs(nt, b);
  }

  /** Incomplete statuses only: a complete configuration has passed everything on. */
  ghost predicate StatusOK(fplp: Links, cur: Sets, incomplete: set<Config>)
  {
    forall c | c in cur && c !in incomplete :: Passed(fplp, cur, c)
  }

  ghost predicate Inv(nt: nat, fplp: Links, init: Sets, cur: Sets, incomplete: set<Config>)
  {
    LinksStay(fplp, init) && Grown(init, cur) && Supported(fplp, init, cur) && Bounded(nt, cur) && StatusOK(fplp, cur, incomplete)
  }

  lemma UnionSupported(fplp: Links, init: Sets, cur: Sets, cfp: Config, d: Config)
    requires LinksStay(fplp, init) && Grown(init, cur) && Supported(fplp, init, cur) && cfp in cur && cfp in fplp && d in fplp[cfp] && d in cur
    ensures Supported(fplp, init, cur[d := cur[d] + cur[cfp]])
  {
    var cur' := cur[d := cur[d] + cur[cfp]];
    forall c, t: nat | c in cur' && t in cur'[c] ensures Arrives(fplp, init, c, t) {
      if c == d && t in cur[cfp] { ArrivesNext(fplp, init, cfp, d, t); }
    }
  }

  lemma UnionStatus(fplp: Links, cur: Sets, incomplete: set<Config>, cfp: Config, d: Config)
    requires StatusOK(fplp, cur, incomplete) && cfp in cur && d in cur
    ensures cur[cfp] <= cur[d] ==> cur[d := cur[d] + cur[cfp]] == cur
    ensures !(cur[cfp] <= cur[d]) ==> StatusOK(fplp, cur[d := cur[d] + cur[cfp]], incomplete + {d})
  {
    var cur' := cur[d := cur[d] + cur[cfp]];
    if cur[cfp] <= cur[d] {
      assert cur[d] + cur[cfp] == cur[d];
      assert cur' == cur;
    } else {
      forall c | c in cur' && c !in incomplete + {d} ensures Passed(fplp, cur', c) {
        assert Passed(fplp, cur, c);
      }
    }
  }

  /** `SetUnion` of the set of `cfp` into that of its link target `d`. */
  lemma UnionStep(nt: nat, fplp: Links, init: Sets, cur: Sets, incomplete: set<Config>, cfp: Config, d: Config)
    requires Inv(nt, fplp, init, cur, incomplete) && cfp in cur && d in fplp[cfp] && cfp in incomplete
    ensures d in cur
    ensures Inv(nt, fplp, init, cur[d := cur[d] + cur[cfp]], if cur[cfp] <= cur[d] then incomplete else incomplete + {d})
    ensures cur[cfp] <= cur[d] ==> cur[d := cur[d] + cur[cfp]] == cur
  {
    UnionSupported(fplp, init, cur, cfp, d);
    UnionStatus(fplp, cur, incomplete, cfp, d);
  }

  ghost predicate PassedTo(cur: Sets, s: set<nat>, ds: set<Config>)
  {
    forall d | d in ds :: d in cur && s <= cur[d]
  }

  lemma UnionGrows(base: Sets, cur: Sets, cfp: Config, d: Config, ds: set<Config>)
    requires Grown(base, cur) && cfp in cur && d in cur && PassedTo(cur, cur[cfp], ds)
    ensures Grown(base, cur[d := cur[d] + cur[cfp]])
    ensures cur[d := cur[d] + cur[cfp]][cfp] == cur[cfp]
    ensures PassedTo(cur[d := cur[d] + cur[cfp]], cur[cfp], ds + {d})
    ensures !(cur[cfp] <= cur[d]) ==> cur[d := cur[d] + cur[cfp]] != base
  {
    var cur' := cur[d := cur[d] + cur[cfp]];
    if !(cur[cfp] <= cur[d]) {
      var t :| t in cur[cfp] && t !in cur[d];
      assert t in cur'[d] && t !in base[d];
    }
  }

  /** The state of the loop over the forward links of `cfp`; the links in `sent` have been served. */
  ghost predicate Sending(nt: nat, fplp: Links, init: Sets, cur0: Sets, incomplete0: set<Config>, cfp: Config,
                          cur: Sets, incomplete: set<Config>, change: bool, sent: set<Config>)
  {
    && Inv(nt, fplp, init, cur, incomplete) && cfp in fplp && cfp in incomplete && cfp in cur0 && Grown(cur0, cur) && cur[cfp] == cur0[cfp]
    && (!change <==> cur == cur0) && (!change ==> incomplete == incomplete0)
    && incomplete <= incomplete0 + fplp[cfp] && sent <= fplp[cfp] && PassedTo(cur, cur0[cfp], sent)
  }

  lemma SendOne(nt: nat, fplp: Links, init: Sets, cur0: Sets, incomplete0: set<Config>, cfp: Config,
                cur: Sets, incomplete: set<Config>, change: bool, sent: set<Config>, d: Config)
    requires Sending(nt, fplp, init, cur0, incomplete0, cfp, cur, incomplete, change, sent) && d in fplp[cfp] && cfp in cur
    ensures d in cur
    ensures Sending(nt, fplp, init, cur0, incomplete0, cfp, cur[d := cur[d] + cur[cfp]],
                    if cur[cfp] <= cur[d] then incomplete else incomplete + {d}, change || !(cur[cfp] <= cur[d]), sent + {d})
  {
    UnionStep(nt, fplp, init, cur, incomplete, cfp, d);
    UnionGrows(cur0, cur, cfp, d, sent);
  }

  lemma SentAll(nt: nat, fplp: Links, init: Sets, cur0: Sets, incomplete0: set<Config>, cfp: Config,
                cur: Sets, incomplete: set<Config>, change: bool)
    requires cfp in fplp && Sending(nt, fplp, init, cur0, incomplete0, cfp, cur, incomplete, change, fplp[cfp])
    ensures Inv(nt, fplp, init, cur, incomplete - {cfp})
  {
    assert Passed(fplp, cur, cfp);
  }

  /** Pass the follow set of `cfp` along all its forward links, then mark it complete. */
  method Propagate(nt: nat, fplp: Links, ghost init: Sets, cur: Sets, incomplete: set<Config>, cfp: Config)
      returns (cur': Sets, incomplete': set<Config>, change: bool)
    requires Inv(nt, fplp, init, cur, incomplete) && cfp in cur && cfp in incomplete
    ensures Inv(nt, fplp, init, cur', incomplete')
    ensures Grown(cur, cur')
    ensures !change <==> cur' == cur
    ensures !change ==> incomplete' == incomplete - {cfp}
    ensures incomplete' <= incomplete + fplp[cfp]
  {
    cur', incomplete', change := cur, incomplete, false;
    var todo := fplp[cfp];
    ghost var sent: set<Config> := {};
    while todo != {}
      invariant Sending(nt, fplp, init, cur, incomplete, cfp, cur', incomplete', change, sent)
      invariant fplp[cfp] == sent + todo
    {
      var d :| d in todo;
      SendOne(nt, fplp, init, cur, incomplete, cfp, cur', incomplete', change, sent, d);
      if !(cur'[cfp] <= cur'[d]) {
        change := true;
        incomplete' := incomplete' + {d};
      }
      cur' := cur'[d := cur'[d] + cur'[cfp]];
      todo, sent := todo - {d}, sent + {d};
    }
    assert sent == fplp[cfp];
    SentAll(nt, fplp, init, cur, incomplete, cfp, cur', incomplete', change);
    incomplete' := incomplete' - {cfp};
  }

  /** Compute all follow sets: sweep over the configurations until a sweep changes nothing. */
  method FindFollowSets(nt: nat, cfgs: seq<Config>, fplp: Links, init: Sets) returns (fws: Sets)
    requires LinksStay(fplp, init) && Bounded(nt, init)
    requires forall c :: c in init <==> c in cfgs
    ensures fws.Keys == init.Keys
    ensures forall c, t: nat | c in fws :: t in fws[c] <==> Arrives(fplp, init, c, t)
    ensures forall c | c in fws :: Passed(fplp, fws, c)
    ensures Grown(init, fws)
  {
    fws := init;
    var incomplete := set c | c in cfgs;
    InitSupported(fplp, init);
    var progress := true;
    while progress
      invariant Inv(nt, fplp, init, fws, incomplete)
      invariant !progress ==> incomplete == {}
      invariant forall c | c in incomplete :: c in cfgs
      decreases MissingPairs(nt, fws), progress
    {
      progress := false;
      ghost var fws0 := fws;
      var i := 0;
      while i < |cfgs|
        invariant 0 <= i <= |cfgs|
        invariant Inv(nt, fplp, init, fws, incomplete)
        invariant Grown(fws0, fws)
        invariant !progress <==> fws == fws0
        invariant forall c | c in incomplete :: c in cfgs
        invariant !progress ==> forall k | 0 <= k < i :: cfgs[k] !in incomplete
      {
        if cfgs[i] in incomplete {
          ghost var fws1 := fws;
          var change;
          fws, incomplete, change := Propagate(nt, fplp, init, fws, incomplete, cfgs[i]);
          if change {
            progress := true;
            GrownApart(fws0, fws1, fws);
          }
        }
        i := i + 1;
      }
      if progress { MissingPairsShrink(nt, fws0, fws); }
    }
    FixpointIsReachability(fplp, init, fws);
  }

  lemma GrownApart(a: Sets, b: Sets, c: Sets)
    requires Grown(a, b) && Grown(b, c) && b != c
    ensures Grown(a, c) && a != c
  {
    var k :| k in b && b[k] != c[k];
    assert a[k] <= b[k] && b[k] <= c[k];
  }

  lemma InitSupported(fplp: Links, init: Sets)
    ensures Supported(fplp, init, init)
  {
    forall c, t: nat | c in init && t in init[c] ensures Arrives(fplp, init, c, t) {
      assert ReachIn(fplp, c, c, 0);
    }
  }

  // ---------------------------------------------------------------------------
  // Forward links
  // ---------------------------------------------------------------------------

  ghost predicate IsConfig(states: seq<State>, c: Config)
  {
    c.st < |states| && c.item in states[c.st].cfp
  }

  /** A closure link inside a state, or the reverse of a recorded back link. */
  ghost predicate Forward(g: Grammar, states: seq<State>, c: Config, d: Config)
  {
    || (d.st == c.st && c.st < |states| && (c.item, d.item) in states[c.st].fplp)
    || IsBackLink(g, states, d, c)
  }

  /** All configurations, state by state. */
  method AllConfigs(states: seq<State>) returns (cfgs: seq<Config>)
    ensures forall c :: c in cfgs <==> IsConfig(states, c)
  {
    cfgs := [];
    for i := 0 to |states|
      invariant forall c :: c in cfgs <==> c.st < i && IsConfig(states, c)
    {
      ghost var before := cfgs;
      for j := 0 to |states[i].cfp|
        invariant forall c :: c in cfgs <==> c in before || (c.st == i && c.item in states[i].cfp[..j])
      {
        cfgs := cfgs + [Config(i, states[i].cfp[j])];
      }
      assert states[i].cfp[..|states[i].cfp|] == states[i].cfp;
    }
  }

  /** Convert all back links into forward links, next to the closure links that are there already. */
  method FindLinks(g: Grammar, states: seq<State>, cfgs: seq<Config>, back: set<(Config, Config)>) returns (fplp: Links)
    requires BackOK(g, states, back) && forall c :: c in cfgs <==> IsConfig(states, c)
    ensures forall c :: c in fplp <==> IsConfig(states, c)
    ensures forall c, d | c in fplp :: d in fplp[c] <==> Forward(g, states, c, d)
  {
    fplp := map c | c in cfgs :: set l | l in states[c.st].fplp && l.0 == c.item :: Config(c.st, l.1);
    var todo, seen := back, {};
    while todo != {}
      invariant todo + seen == back
      invariant forall c :: c in fplp <==> IsConfig(states, c)
      invariant forall c, d | c in fplp ::
                  d in fplp[c] <==> (d.st == c.st && (c.item, d.item) in states[c.st].fplp) || (d, c) in seen
    {
      var l :| l in todo;
      todo, seen := todo - {l}, seen + {l};
      var cfp, other := l.0, l.1;
      assert (cfp, other) in back;
      assert IsBackLink(g, states, cfp, other);
      fplp := fplp[other := fplp[other] + {cfp}];
    }
  }
}
