/**
 No applier waits in vain, and no latch is left behind.  In every state of every run, an
 applier that waits for a synchro row owns an entry of the journal with that row, and a
 latch is held exactly by the applier that has rows of its origin in hand.
 */
module ApplierWakes {
  import opened Options
  import opened VClocks
  import opened Applier

  /** Entry `k` of the journal is the one that fiber `i` waits for. */
  ghost predicate Awaited(s: State, i: nat, k: nat)
    requires i < |s.fibers| && s.fibers[i].phase.Writing?
  {
    k < |s.journal| && s.journal[k] == Entry([s.fibers[i].phase.row], Some(i))
  }

  ghost predicate WaitsWell(s: State, i: nat)
  {
    i < |s.fibers| && s.fibers[i].phase.Writing? ==> exists k: nat :: Awaited(s, i, k)
  }

  /** The fiber has rows in hand whose origin has the latch `key`. */
  predicate HasInHand(m: Mode, f: Fiber, key: nat)
  {
    match f.phase
    case Applying(rows) => rows != [] && m.key(rows[0].origin) == key
    case Writing(row) => m.key(row.origin) == key
    case Written(row) => m.key(row.origin) == key
    case _ => false
  }

  ghost predicate LatchUsed(m: Mode, s: State, key: nat)
  {
    key in s.latch ==> s.latch[key] < |s.fibers| && HasInHand(m, s.fibers[s.latch[key]], key)
  }

  ghost predicate Awake(m: Mode, s: State)
  {
    (forall i: nat :: WaitsWell(s, i)) && (forall key: nat :: LatchUsed(m, s, key))
  }

  /** A fiber turns to something else, and the journal stays or grows. */
  lemma OneTurns(m: Mode, s: State, s': State, i: nat, key: Option<nat>)
    requires Awake(m, s) && i < |s.fibers| == |s'.fibers| && s.journal <= s'.journal && WaitsWell(s', i)
    requires forall j | 0 <= j < |s.fibers| && j != i :: s'.fibers[j] == s.fibers[j]
    requires forall k: nat | k in s'.latch && Some(k) != key :: k in s.latch && s'.latch[k] == s.latch[k] && s.latch[k] != i
    requires key.Some? && key.value in s'.latch ==> s'.latch[key.value] == i && HasInHand(m, s'.fibers[i], key.value)
    ensures Awake(m, s')
  {
    forall j: nat ensures WaitsWell(s', j) {
      if j != i && j < |s.fibers| && s.fibers[j].phase.Writing? {
        assert WaitsWell(s, j);
        var k: nat :| Awaited(s, j, k);
        assert Awaited(s', j, k);
      }
    }
    forall k: nat ensures LatchUsed(m, s', k) { assert LatchUsed(m, s, k); }
  }

  /** A fiber holds only the latch of the origin that it has in hand. */
  lemma HoldsOne(m: Mode, s: State, k: nat)
    requires Awake(m, s) && k in s.latch
    ensures s.latch[k] < |s.fibers| && HasInHand(m, s.fibers[s.latch[k]], k)
  {
    assert LatchUsed(m, s, k);
  }

  lemma StepAwake(m: Mode, base: VClock, s: State, s': State, a: Action)
    requires Inv(m, base, s) && Awake(m, s) && Next(m, s, s', a)
    ensures Awake(m, s')
  {
    match a {
      case DoSubscribe(i) => FreeTurns(m, s, s', i);
      case DoReceive(i, tx) => FreeTurns(m, s, s', i);
      case DoSkip(i) => FreeTurns(m, s, s', i);
      case DoLock(i) => assert FiberOK(m, base, s, i); LockAwake(m, s, s', i);
      case DoAbort(i) => assert FiberOK(m, base, s, i); ReleaseAwake(m, s, s', i, s.fibers[i].phase.rows[0].origin);
      case DoSubmit(i) => assert FiberOK(m, base, s, i); ReleaseAwake(m, s, s', i, s.fibers[i].phase.rows[0].origin);
      case DoSubmitSynchro(i) => assert FiberOK(m, base, s, i); SynchroAwake(m, s, s', i);
      case DoWrite => WriteAwake(m, s, s');
      case DoFollow(i) => assert FiberOK(m, base, s, i); ReleaseAwake(m, s, s', i, s.fibers[i].phase.row.origin);
      case DoFail => FailAwake(m, s, s');
    }
  }

  /** A fiber with nothing in hand turns to something else without a latch. */
  lemma FreeTurns(m: Mode, s: State, s': State, i: nat)
    requires Awake(m, s) && i < |s.fibers| && (forall k :: !HasInHand(m, s.fibers[i], k))
    requires |s'.fibers| == |s.fibers| && s'.latch == s.latch && s'.journal == s.journal && !s'.fibers[i].phase.Writing?
    requires forall j | 0 <= j < |s.fibers| && j != i :: s'.fibers[j] == s.fibers[j]
    ensures Awake(m, s')
  {
    forall k: nat | k in s'.latch ensures s.latch[k] != i { HoldsOne(m, s, k); }
    OneTurns(m, s, s', i, None);
  }

  lemma LockAwake(m: Mode, s: State, s': State, i: nat)
    requires Awake(m, s) && Lock(m, s, s', i) && IsTx(s.fibers[i].phase.tx)
    ensures Awake(m, s')
  {
    var tx := s.fibers[i].phase.tx;
    forall k: nat | k in s.latch ensures s.latch[k] != i { HoldsOne(m, s, k); }
    UnappliedStarts(tx, s.applied);
    OneTurns(m, s, s', i, Some(m.key(tx[0].origin)));
  }

  /** What is left to apply begins with a row of the same transaction. */
  lemma {:induction false} UnappliedStarts(tx: seq<Row>, v: VClock)
    requires tx != [] && (forall i | 0 <= i < |tx| :: tx[i].origin == tx[0].origin) && Get(v, tx[0].origin) < Last(tx).lsn
    ensures Unapplied(tx, v) != [] && Unapplied(tx, v)[0].origin == tx[0].origin
  {
    if tx[0].lsn <= Get(v, tx[0].origin) {
      assert tx[1..] != [] && Last(tx[1..]) == Last(tx);
      UnappliedStarts(tx[1..], v);
    }
  }

  /** A fiber is done with the rows of an origin and gives its latch back. */
  lemma ReleaseAwake(m: Mode, s: State, s': State, i: nat, o: nat)
    requires Awake(m, s) && i < |s.fibers| == |s'.fibers| && HasInHand(m, s.fibers[i], m.key(o)) && s'.latch == Unlock(m, s, o)
    requires s.journal <= s'.journal && !s'.fibers[i].phase.Writing? && forall j | 0 <= j < |s.fibers| && j != i :: s'.fibers[j] == s.fibers[j]
    ensures Awake(m, s')
  {
    forall k: nat | k in s'.latch ensures s.latch[k] != i { HoldsOne(m, s, k); }
    OneTurns(m, s, s', i, None);
  }

  lemma SynchroAwake(m: Mode, s: State, s': State, i: nat)
    requires Awake(m, s) && SubmitSynchro(m, s, s', i) && Holds(m, s, i, s.fibers[i].phase.rows[0].origin)
    ensures Awake(m, s')
  {
    var key := m.key(s.fibers[i].phase.rows[0].origin);
    forall k: nat | k in s'.latch && k != key ensures s.latch[k] != i { HoldsOne(m, s, k); }
    assert Awaited(s', i, |s.journal|);
    OneTurns(m, s, s', i, Some(key));
  }

  lemma WriteAwake(m: Mode, s: State, s': State)
    requires Awake(m, s) && JournalOK(s) && Write(m, s, s')
    ensures Awake(m, s')
  {
    assert EntryOK(s, 0);
    forall j: nat ensures WaitsWell(s', j) {
      if j < |s'.fibers| && s'.fibers[j].phase.Writing? {
        assert WaitsWell(s, j);
        var k: nat :| Awaited(s, j, k);
        assert k > 0;
        assert Awaited(s', j, k - 1);
      }
    }
    forall k: nat ensures LatchUsed(m, s', k) { assert LatchUsed(m, s, k); }
  }

  lemma FailAwake(m: Mode, s: State, s': State)
    requires Awake(m, s) && Fail(m, s, s')
    ensures Awake(m, s')
  {
    forall j: nat ensures WaitsWell(s', j) { assert WaitsWell(s, j); }
    forall k: nat ensures LatchUsed(m, s', k) { assert LatchUsed(m, s, k); }
  }

  lemma {:induction false} RunAwake(m: Mode, run: seq<State>, actions: seq<Action>, k: nat)
    requires IsRun(m, run, actions) && k < |run|
    ensures Awake(m, run[k])
  {
    if k > 0 {
      RunAwake(m, run, actions, k - 1);
      RunKeeps(m, run, actions, k - 1);
      assert Next(m, run[k - 1], run[k], actions[k - 1]);
      StepAwake(m, run[0].committed, run[k - 1], run[k], actions[k - 1]);
    }
  }

  /**
   In every state of every run: an applier that waits for a synchro row owns a pending
   entry with this row, and the latch of an origin is taken exactly if some applier has
   rows in hand whose origin it guards, and by that applier.
   */
  lemma NobodyWaitsInVain(m: Mode, run: seq<State>, actions: seq<Action>, k: nat, i: nat, key: nat)
    requires IsRun(m, run, actions) && k < |run| && i < |run[k].fibers|
    ensures run[k].fibers[i].phase.Writing? ==> Entry([run[k].fibers[i].phase.row], Some(i)) in run[k].journal
    ensures HasInHand(m, run[k].fibers[i], key) <==> key in run[k].latch && run[k].latch[key] == i
  {
    RunAwake(m, run, actions, k);
    RunKeeps(m, run, actions, k);
    assert WaitsWell(run[k], i) && LatchUsed(m, run[k], key) && FiberOK(m, run[0].committed, run[k], i);
  }

  /**
   When the journal has written the entry of an applier that waits, the applier can go on;
   after that its clock is at the written row and the latch of the origin is free.
   */
  lemma WrittenCanFollow(m: Mode, run: seq<State>, actions: seq<Action>, k: nat, i: nat) returns (s: State)
    requires IsRun(m, run, actions) && k < |actions| && actions[k] == DoWrite
    requires run[k].journal != [] && run[k].journal[0].rows != [] && run[k].journal[0].owner == Some(i)
    ensures Next(m, run[k + 1], s, DoFollow(i))
    ensures var row := run[k].journal[0].rows[0]; Get(s.applied, row.origin) == row.lsn && LatchFree(m, s, row.origin)
    ensures i < |s.fibers| && (s.fibers[i].phase.Idle? || (s.fibers[i].phase.Stopped? && run[k].fibers[i].cancelled))
  {
    RunKeeps(m, run, actions, k);
    assert EntryOK(run[k], 0) && Next(m, run[k], run[k + 1], actions[k]);
    var s1, row := run[k + 1], run[k].journal[0].rows[0];
    assert s1.fibers[i].phase == Written(row);
    s := s1.(fibers := SetPhase(s1, i, Done(s1.fibers[i])), latch := Unlock(m, s1, row.origin), applied := s1.applied[row.origin := row.lsn]);
  }

  /** The journal writes its entries in order: an applier whose entry is at `q` is awake after `q + 1` writes. */
  lemma {:induction false} WritesWake(m: Mode, run: seq<State>, actions: seq<Action>, k: nat, i: nat, q: nat)
    requires IsRun(m, run, actions) && k + q < |actions| && i < |run[k].fibers| && run[k].fibers[i].phase.Writing? && Awaited(run[k], i, q)
    requires forall j | k <= j <= k + q :: actions[j] == DoWrite
    ensures i < |run[k + q + 1].fibers| && run[k + q + 1].fibers[i].phase == Written(run[k].fibers[i].phase.row)
    decreases q
  {
    RunKeeps(m, run, actions, k);
    assert EntryOK(run[k], 0) && EntryOK(run[k], q) && Next(m, run[k], run[k + 1], actions[k]);
    if q > 0 {
      assert run[k].journal[0].owner != Some(i);
      assert run[k + 1].fibers[i] == run[k].fibers[i] && Awaited(run[k + 1], i, q - 1);
      WritesWake(m, run, actions, k + 1, i, q - 1);
    }
  }
}
