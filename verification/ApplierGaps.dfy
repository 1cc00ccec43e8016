/**
 Gaps in the log of a replica.  With gap-free streams, the rows of an origin that have
 entered the journal have no gap, and neither have those written, exactly if no failure
 of the journal spares an applier that then hands in rows whose predecessors have failed.
 */
module ApplierGaps {
  import opened Options
  import opened VClocks
  import opened Applier

  // ---------------------------------------------------------------------------
  // What every step keeps while no batch has opened a gap
  // ---------------------------------------------------------------------------

  /** All LSNs from `base + 1` on, without a gap. */
  ghost predicate Dense(base: nat, rows: seq<Row>)
  {
    forall i | 0 <= i < |rows| :: rows[i].lsn == base + 1 + i
  }

  lemma DenseAppend(base: nat, a: seq<Row>, b: seq<Row>)
    requires Dense(base, a) && b != [] && Contiguous(b) && b[0].lsn == TopOf(base, a) + 1
    ensures Dense(base, a + b) && TopOf(base, a + b) == Last(b).lsn
  {
  }

  ghost predicate OriginDense(base: VClock, s: State, o: nat)
  {
    && Dense(Get(base, o), Of(Entered(s), o))
    && (Get(s.applied, o) == Top(base, s, o) || HasWriter(s, o))
  }

  /** The stream has given nothing beyond what has entered, apart from the rows of origin `o` in hand. */
  ghost predicate SeenOK(base: VClock, s: State, i: nat, o: Option<nat>)
    requires i < |s.fibers|
  {
    forall p: nat | o != Some(p) :: Get(s.fibers[i].seen, p) <= Top(base, s, p)
  }

  /** A fiber that a failure has cancelled may have any rows in hand. */
  ghost predicate FiberDense(base: VClock, s: State, i: nat)
  {
    i < |s.fibers| &&
    match s.fibers[i].phase
    case Stopped => true
    case Idle => SeenOK(base, s, i, None)
    case Waiting(tx) => !s.fibers[i].cancelled ==>
      IsTx(tx) && Contiguous(tx) && tx[0].lsn <= Top(base, s, tx[0].origin) + 1
      && Last(tx).lsn == Get(s.fibers[i].seen, tx[0].origin) && SeenOK(base, s, i, Some(tx[0].origin))
    case Applying(rows) => !s.fibers[i].cancelled ==>
      IsTx(rows) && Contiguous(rows) && rows[0].lsn == Top(base, s, rows[0].origin) + 1
      && Last(rows).lsn == Get(s.fibers[i].seen, rows[0].origin) && SeenOK(base, s, i, Some(rows[0].origin))
    case Writing(row) => Top(base, s, row.origin) == row.lsn && (s.fibers[i].cancelled || SeenOK(base, s, i, None))
    case Written(row) => Top(base, s, row.origin) == row.lsn && (s.fibers[i].cancelled || SeenOK(base, s, i, None))
  }

  ghost predicate DenseInv(base: VClock, s: State)
  {
    && (forall o: nat :: OriginDense(base, s, o))
    && (forall i: nat | i < |s.fibers| :: FiberDense(base, s, i))
  }

  /** Nothing has entered: only fiber `i` has moved. */
  lemma QuietDense(base: VClock, s: State, s': State, i: nat)
    requires DenseInv(base, s) && Entered(s') == Entered(s) && s'.applied == s.applied && |s'.fibers| == |s.fibers| && i < |s.fibers|
    requires (forall j | 0 <= j < |s.fibers| && j != i :: s'.fibers[j] == s.fibers[j]) && (forall o :: !Writes(s.fibers[i], o)) && FiberDense(base, s', i)
    ensures DenseInv(base, s')
  {
    forall o: nat ensures OriginDense(base, s', o) {
      assert OriginDense(base, s, o);
      WriterStays(s, s', i, o);
    }
    forall j: nat | j < |s'.fibers| ensures FiberDense(base, s', j) {
      if j != i { assert FiberDense(base, s, j); }
    }
  }

  lemma SubscribeDense(m: Mode, base: VClock, s: State, s': State, i: nat)
    requires Inv(m, base, s) && DenseInv(base, s) && Subscribe(m, s, s', i)
    ensures DenseInv(base, s')
  {
    assert Entered(s') == Entered(s);
    forall p: nat ensures Get(s'.fibers[i].seen, p) <= Top(base, s', p) {
      assert OriginOK(m, base, s, p);
      CommittedEntered(m, base, s, p);
    }
    QuietDense(base, s, s', i);
  }

  lemma ReceiveDense(m: Mode, base: VClock, s: State, s': State, i: nat, tx: seq<Row>)
    requires m.gapless && DenseInv(base, s) && Receive(m, s, s', i, tx)
    ensures DenseInv(base, s')
  {
    assert FiberDense(base, s, i) && Entered(s') == Entered(s);
    QuietDense(base, s, s', i);
  }

  /** With the latch free, the applier clock is what has entered. */
  lemma FreeLatchDense(m: Mode, base: VClock, s: State, o: nat)
    requires Inv(m, base, s) && DenseInv(base, s) && LatchFree(m, s, o)
    ensures Get(s.applied, o) == Top(base, s, o)
  {
    assert OriginDense(base, s, o);
    forall i: nat | i < |s.fibers| ensures !Writes(s.fibers[i], o) { assert FiberOK(m, base, s, i); }
  }

  lemma SkipDense(m: Mode, base: VClock, s: State, s': State, i: nat)
    requires Inv(m, base, s) && DenseInv(base, s) && Skip(m, s, s', i)
    ensures DenseInv(base, s')
  {
    assert FiberDense(base, s, i) && Entered(s') == Entered(s);
    FreeLatchDense(m, base, s, s.fibers[i].phase.tx[0].origin);
    QuietDense(base, s, s', i);
  }

  lemma LockDense(m: Mode, base: VClock, s: State, s': State, i: nat)
    requires Inv(m, base, s) && DenseInv(base, s) && Lock(m, s, s', i)
    ensures DenseInv(base, s')
  {
    assert FiberDense(base, s, i) && Entered(s') == Entered(s);
    FreeLatchDense(m, base, s, s.fibers[i].phase.tx[0].origin);
    assert FiberOK(m, base, s, i);
    UnappliedIsTx(s.fibers[i].phase.tx, s.applied);
    QuietDense(base, s, s', i);
  }

  lemma AbortDense(m: Mode, base: VClock, s: State, s': State, i: nat)
    requires DenseInv(base, s) && Abort(m, s, s', i)
    ensures DenseInv(base, s')
  {
    assert Entered(s') == Entered(s);
    QuietDense(base, s, s', i);
  }

  /** Other fibers have no rows of origin `o` in hand. */
  lemma OthersDense(m: Mode, base: VClock, s: State, s': State, i: nat, o: nat, j: nat)
    requires FiberOK(m, base, s, j) && FiberDense(base, s, j) && j != i && |s'.fibers| == |s.fibers| && s'.fibers[j] == s.fibers[j] && Holds(m, s, i, o)
    requires forall p: nat :: Top(base, s', p) >= Top(base, s, p) && (m.key(p) != m.key(o) ==> Top(base, s', p) == Top(base, s, p))
    ensures FiberDense(base, s', j)
  {
  }

  /** The rows that a fiber hands to the journal are the next ones of their origin. */
  ghost predicate HandsNext(base: VClock, s: State, i: nat)
  {
    && i < |s.fibers| && s.fibers[i].phase.Applying?
    && var rows := s.fibers[i].phase.rows;
       rows != [] && Contiguous(rows) && rows[0].lsn == Top(base, s, rows[0].origin) + 1
  }

  predicate Hands(a: Action, i: nat)
  {
    a == DoSubmit(i) || a == DoSubmitSynchro(i)
  }

  /** A fiber that has not been cancelled hands the next rows. */
  lemma UncancelledHandsNext(base: VClock, s: State, i: nat)
    requires FiberDense(base, s, i) && s.fibers[i].phase.Applying? && !s.fibers[i].cancelled
    ensures HandsNext(base, s, i)
  {
  }

  lemma SubmitOriginDense(m: Mode, base: VClock, s: State, s': State, i: nat, o: nat, owner: Option<nat>)
    requires HandsNext(base, s, i) && IsTx(s.fibers[i].phase.rows) && OriginDense(base, s, o)
    requires s'.wal == s.wal && s'.journal == s.journal + [Entry(s.fibers[i].phase.rows, owner)]
    ensures Dense(Get(base, o), Of(Entered(s'), o))
    ensures Top(base, s', o) == if o == s.fibers[i].phase.rows[0].origin then Last(s.fibers[i].phase.rows).lsn else Top(base, s, o)
  {
    var rows := s.fibers[i].phase.rows;
    EnteredAppend(s, s', Entry(rows, owner), o);
    if o == rows[0].origin { DenseAppend(Get(base, o), Of(Entered(s), o), rows); }
  }

  lemma SubmitDense(m: Mode, base: VClock, s: State, s': State, i: nat)
    requires Inv(m, base, s) && DenseInv(base, s) && Submit(m, s, s', i) && HandsNext(base, s, i)
    ensures DenseInv(base, s')
  {
    var rows := s.fibers[i].phase.rows;
    var o := rows[0].origin;
    assert FiberOK(m, base, s, i) && FiberDense(base, s, i);
    forall p: nat ensures OriginDense(base, s', p) && Top(base, s', p) == if p == o then Last(rows).lsn else Top(base, s, p) {
      assert OriginDense(base, s, p);
      SubmitOriginDense(m, base, s, s', i, p, None);
      WriterStays(s, s', i, p);
    }
    forall j: nat | j < |s'.fibers| ensures FiberDense(base, s', j) {
      assert FiberOK(m, base, s, j) && FiberDense(base, s, j);
      if j != i { OthersDense(m, base, s, s', i, o, j); }
    }
  }

  lemma SynchroOriginDense(m: Mode, base: VClock, s: State, s': State, i: nat, p: nat)
    requires SubmitSynchro(m, s, s', i) && HandsNext(base, s, i) && OriginDense(base, s, p)
    ensures OriginDense(base, s', p)
    ensures Top(base, s', p) == if p == s.fibers[i].phase.rows[0].origin then Last(s.fibers[i].phase.rows).lsn else Top(base, s, p)
  {
    var rows := s.fibers[i].phase.rows;
    assert rows == [rows[0]] && IsTx(rows);
    SubmitOriginDense(m, base, s, s', i, p, Some(i));
    if p == rows[0].origin { assert Writes(s'.fibers[i], p); } else { WriterStays(s, s', i, p); }
  }

  lemma SubmitSynchroDense(m: Mode, base: VClock, s: State, s': State, i: nat)
    requires Inv(m, base, s) && DenseInv(base, s) && SubmitSynchro(m, s, s', i) && HandsNext(base, s, i)
    ensures DenseInv(base, s')
  {
    var rows := s.fibers[i].phase.rows;
    var o := rows[0].origin;
    assert FiberOK(m, base, s, i) && FiberDense(base, s, i);
    forall p: nat ensures OriginDense(base, s', p) && Top(base, s', p) == if p == o then Last(rows).lsn else Top(base, s, p) {
      assert OriginDense(base, s, p);
      SynchroOriginDense(m, base, s, s', i, p);
    }
    forall j: nat | j < |s'.fibers| ensures FiberDense(base, s', j) {
      assert FiberOK(m, base, s, j) && FiberDense(base, s, j);
      if j != i { OthersDense(m, base, s, s', i, o, j); } else { SynchroWriterDense(m, base, s, s', i); }
    }
  }

  /** The fiber that waits has nothing else in hand. */
  lemma SynchroWriterDense(m: Mode, base: VClock, s: State, s': State, i: nat)
    requires i < |s.fibers| && SubmitSynchro(m, s, s', i) && FiberDense(base, s, i)
    requires forall p: nat :: Top(base, s', p) == if p == s.fibers[i].phase.rows[0].origin then Last(s.fibers[i].phase.rows).lsn else Top(base, s, p)
    ensures FiberDense(base, s', i)
  {
  }

  lemma WriteDense(m: Mode, base: VClock, s: State, s': State)
    requires Inv(m, base, s) && DenseInv(base, s) && Write(m, s, s')
    ensures DenseInv(base, s')
  {
    EnteredWrite(s, s');
    forall o: nat ensures OriginDense(base, s', o) {
      assert OriginDense(base, s, o);
      WriteOriginDense(m, base, s, s', o);
    }
    forall j: nat | j < |s'.fibers| ensures FiberDense(base, s', j) {
      assert FiberDense(base, s, j);
      WriteFiberDense(m, base, s, s', j);
    }
  }

  lemma WriteOriginDense(m: Mode, base: VClock, s: State, s': State, o: nat)
    requires Write(m, s, s') && Entered(s') == Entered(s) && OriginDense(base, s, o)
    ensures OriginDense(base, s', o)
  {
    WriterWakes(s.fibers, s.journal[0], o);
  }

  lemma WriteFiberDense(m: Mode, base: VClock, s: State, s': State, j: nat)
    requires Write(m, s, s') && Entered(s') == Entered(s) && FiberDense(base, s, j)
    ensures FiberDense(base, s', j)
  {
    var f, f' := s.fibers[j], s'.fibers[j];
    assert f' == f || (f.phase.Writing? && f' == f.(phase := Written(f.phase.row)));
    assert forall p: nat :: Top(base, s', p) == Top(base, s, p);
  }

  lemma FollowDense(m: Mode, base: VClock, s: State, s': State, i: nat)
    requires Inv(m, base, s) && DenseInv(base, s) && Follow(m, s, s', i)
    ensures DenseInv(base, s')
  {
    var row := s.fibers[i].phase.row;
    assert FiberDense(base, s, i) && Entered(s') == Entered(s);
    forall o: nat ensures OriginDense(base, s', o) {
      assert OriginDense(base, s, o);
      if o != row.origin { WriterStays(s, s', i, o); }
    }
    forall j: nat | j < |s'.fibers| ensures FiberDense(base, s', j) { assert FiberDense(base, s, j); }
  }

  ghost predicate WalDense(base: VClock, s: State)
  {
    forall o: nat :: Dense(Get(base, o), Of(s.wal, o))
  }

  /** A failure leaves what is written, and every fiber that goes on is cancelled. */
  lemma FailDense(m: Mode, base: VClock, s: State, s': State)
    requires Inv(m, base, s) && WalDense(base, s) && Fail(m, s, s')
    ensures DenseInv(base, s')
  {
    forall o: nat ensures OriginDense(base, s', o) && Top(base, s', o) == Get(s.committed, o) {
      FailOrigin(m, base, s, s', o);
      EnteredFail(s, s', o);
    }
    forall j: nat | j < |s'.fibers| ensures FiberDense(base, s', j) { assert FiberOK(m, base, s, j); }
  }

  lemma PrefixDense(base: VClock, all: seq<Row>, a: seq<Row>, b: seq<Row>, o: nat)
    requires all == a + b && Dense(Get(base, o), Of(all, o))
    ensures Dense(Get(base, o), Of(a, o))
  {
    OfConcat(a, b, o);
    var w := Of(a, o);
    forall i | 0 <= i < |w| ensures w[i] == Of(all, o)[i] { }
  }

  lemma StepDense(m: Mode, base: VClock, s: State, s': State, a: Action)
    requires m.gapless && Inv(m, base, s) && DenseInv(base, s) && Next(m, s, s', a)
    requires forall i: nat | Hands(a, i) :: HandsNext(base, s, i)
    ensures DenseInv(base, s')
  {
    match a {
      case DoSubscribe(i) => SubscribeDense(m, base, s, s', i);
      case DoReceive(i, tx) => ReceiveDense(m, base, s, s', i, tx);
      case DoSkip(i) => SkipDense(m, base, s, s', i);
      case DoLock(i) => LockDense(m, base, s, s', i);
      case DoAbort(i) => AbortDense(m, base, s, s', i);
      case DoSubmit(i) => assert Hands(a, i); SubmitDense(m, base, s, s', i);
      case DoSubmitSynchro(i) => assert Hands(a, i); SubmitSynchroDense(m, base, s, s', i);
      case DoWrite => WriteDense(m, base, s, s');
      case DoFollow(i) => FollowDense(m, base, s, s', i);
      case DoFail =>
        forall o: nat ensures Dense(Get(base, o), Of(s.wal, o)) {
          assert OriginDense(base, s, o);
          PrefixDense(base, Entered(s), s.wal, RowsOf(s.journal), o);
        }
        FailDense(m, base, s, s');
    }
  }

  // ---------------------------------------------------------------------------
  // The exact condition for no gaps
  // ---------------------------------------------------------------------------

  ghost predicate EnteredDense(base: VClock, s: State)
  {
    forall o: nat :: Dense(Get(base, o), Of(Entered(s), o))
  }

  lemma DenseSplits(base: nat, a: seq<Row>, b: seq<Row>)
    requires Dense(base, a) && b != []
    ensures Dense(base, a + b) <==> Contiguous(b) && b[0].lsn == TopOf(base, a) + 1
  {
    if Dense(base, a + b) {
      forall i | 0 <= i < |b| ensures b[i].lsn == base + 1 + |a| + i { assert (a + b)[|a| + i] == b[i]; }
    } else if Contiguous(b) && b[0].lsn == TopOf(base, a) + 1 {
      DenseAppend(base, a, b);
    }
  }

  /** Handing rows to the journal keeps what has entered without a gap exactly if they are the next ones. */
  lemma HandDense(m: Mode, base: VClock, s: State, s': State, i: nat, owner: Option<nat>)
    requires Inv(m, base, s) && i < |s.fibers| && s.fibers[i].phase.Applying? && EnteredDense(base, s)
    requires s'.wal == s.wal && s'.journal == s.journal + [Entry(s.fibers[i].phase.rows, owner)]
    ensures EnteredDense(base, s') <==> HandsNext(base, s, i)
  {
    assert FiberOK(m, base, s, i);
    var rows := s.fibers[i].phase.rows;
    var o := rows[0].origin;
    forall p: nat ensures p != o ==> Of(Entered(s'), p) == Of(Entered(s), p) {
      EnteredAppend(s, s', Entry(rows, owner), p);
    }
    EnteredAppend(s, s', Entry(rows, owner), o);
    DenseSplits(Get(base, o), Of(Entered(s), o), rows);
  }

  /** The other steps never open a gap in what has entered. */
  lemma OtherDense(m: Mode, base: VClock, s: State, s': State, a: Action)
    requires Inv(m, base, s) && Next(m, s, s', a) && !a.DoSubmit? && !a.DoSubmitSynchro? && EnteredDense(base, s)
    ensures EnteredDense(base, s')
  {
    if a.DoWrite? {
      EnteredWrite(s, s');
    } else if a.DoFail? {
      forall o: nat ensures Dense(Get(base, o), Of(Entered(s'), o)) {
        EnteredFail(s, s', o);
        var before, after := Of(Entered(s), o), Of(Entered(s'), o);
        forall k | 0 <= k < |after| ensures after[k] == before[k] { }
      }
    } else {
      assert Entered(s') == Entered(s);
    }
  }

  lemma StepExact(m: Mode, base: VClock, s: State, s': State, a: Action)
    requires Inv(m, base, s) && Next(m, s, s', a) && EnteredDense(base, s)
    ensures EnteredDense(base, s') <==> forall i: nat | Hands(a, i) :: HandsNext(base, s, i)
  {
    if a.DoSubmit? {
      HandDense(m, base, s, s', a.i, None);
      assert Hands(a, a.i);
    } else if a.DoSubmitSynchro? {
      assert s.fibers[a.i].phase.rows == [s.fibers[a.i].phase.rows[0]];
      HandDense(m, base, s, s', a.i, Some(a.i));
      assert Hands(a, a.i);
    } else {
      OtherDense(m, base, s, s', a);
    }
  }

  /** Every step up to `k` that hands rows to the journal hands the next ones. */
  ghost predicate AllHandNext(run: seq<State>, actions: seq<Action>, k: nat)
    requires |run| == |actions| + 1 && k <= |actions|
  {
    forall j: nat, i: nat | j < k && Hands(actions[j], i) :: HandsNext(run[0].committed, run[j], i)
  }

  /**
   On every run, with clean failures or not: what has entered has had no gap at any time
   exactly if every batch that was handed to the journal started with the next LSN of its
   origin.
   */
  lemma {:induction false} NoGapExactly(m: Mode, run: seq<State>, actions: seq<Action>, k: nat)
    requires IsRun(m, run, actions) && k <= |actions|
    ensures DenseTo(run, k) <==> AllHandNext(run, actions, k)
  {
    if k == 0 {
      assert Entered(run[0]) == [];
    } else {
      NoGapExactly(m, run, actions, k - 1);
      AllHandOneMore(run, actions, k - 1);
      if DenseTo(run, k - 1) { RunStepExact(m, run, actions, k - 1); }
    }
  }

  /** What has entered has had no gap up to state `k`. */
  ghost predicate DenseTo(run: seq<State>, k: nat)
    requires k < |run|
  {
    forall j | 0 <= j <= k :: EnteredDense(run[0].committed, run[j])
  }

  lemma RunStepExact(m: Mode, run: seq<State>, actions: seq<Action>, k: nat)
    requires IsRun(m, run, actions) && k < |actions| && DenseTo(run, k)
    ensures DenseTo(run, k + 1) <==> forall i: nat | Hands(actions[k], i) :: HandsNext(run[0].committed, run[k], i)
  {
    RunKeeps(m, run, actions, k);
    assert Next(m, run[k], run[k + 1], actions[k]);
    StepExact(m, run[0].committed, run[k], run[k + 1], actions[k]);
  }

  /** On every run: if every batch was the next one, the written rows of an origin are a gap-free prefix of its history. */
  lemma HandedNextIsPrefix(m: Mode, run: seq<State>, actions: seq<Action>, k: nat, o: nat)
    requires IsRun(m, run, actions) && k < |run| && AllHandNext(run, actions, k)
    ensures Dense(Get(run[0].committed, o), Of(run[k].wal, o))
  {
    NoGapExactly(m, run, actions, k);
    assert EnteredDense(run[0].committed, run[k]);
    PrefixDense(run[0].committed, Entered(run[k]), run[k].wal, RowsOf(run[k].journal), o);
  }

  lemma AllHandOneMore(run: seq<State>, actions: seq<Action>, k: nat)
    requires |run| == |actions| + 1 && k < |actions|
    ensures AllHandNext(run, actions, k + 1) <==> AllHandNext(run, actions, k) && forall i: nat | Hands(actions[k], i) :: HandsNext(run[0].committed, run[k], i)
  {
  }

  // ---------------------------------------------------------------------------
  // Where a gap comes from
  // ---------------------------------------------------------------------------

  /** The fiber is in the middle of a transaction that has not gone to the journal. */
  predicate InHand(f: Fiber)
  {
    f.phase.Waiting? || f.phase.Applying?
  }

  /** The failure at step `e` found fiber `i` in the middle of the transaction that it still has in hand in state `k`. */
  ghost predicate Spared(run: seq<State>, actions: seq<Action>, e: nat, k: nat, i: nat)
  {
    && |run| == |actions| + 1 && e < k < |run| && actions[e] == DoFail
    && i < |run[e].fibers| && InHand(run[e].fibers[i])
    && forall j | e < j <= k :: i < |run[j].fibers| && InHand(run[j].fibers[i]) && run[j].fibers[i].cancelled
  }

  lemma SparedOneMore(run: seq<State>, actions: seq<Action>, e: nat, k: nat, i: nat)
    requires Spared(run, actions, e, k, i) && k + 1 < |run|
    requires i < |run[k + 1].fibers| && InHand(run[k + 1].fibers[i]) && run[k + 1].fibers[i].cancelled
    ensures Spared(run, actions, e, k + 1, i)
  {
  }

  /** A cancelled fiber with rows in hand had them before the step, unless the step is the failure that found it so. */
  lemma CancelledBefore(m: Mode, base: VClock, s: State, s': State, a: Action, i: nat)
    requires Inv(m, base, s) && Next(m, s, s', a) && i < |s'.fibers| && s'.fibers[i].cancelled && InHand(s'.fibers[i])
    ensures i < |s.fibers| && InHand(s.fibers[i]) && (a == DoFail || s.fibers[i].cancelled)
  {
    assert FiberOK(m, base, s, i);
  }

  lemma {:induction false} CancelledWasSpared(m: Mode, run: seq<State>, actions: seq<Action>, k: nat, i: nat) returns (e: nat)
    requires IsRun(m, run, actions) && k < |run| && i < |run[k].fibers| && run[k].fibers[i].cancelled && InHand(run[k].fibers[i])
    ensures Spared(run, actions, e, k, i)
  {
    assert k > 0;
    RunKeeps(m, run, actions, k - 1);
    assert Next(m, run[k - 1], run[k], actions[k - 1]);
    CancelledBefore(m, run[0].committed, run[k - 1], run[k], actions[k - 1], i);
    if actions[k - 1] == DoFail {
      e := k - 1;
    } else {
      e := CancelledWasSpared(m, run, actions, k - 1, i);
      SparedOneMore(run, actions, e, k - 1, i);
    }
  }

  lemma InitialDense(m: Mode, run: seq<State>, actions: seq<Action>)
    requires IsRun(m, run, actions)
    ensures DenseInv(run[0].committed, run[0])
  {
    assert Entered(run[0]) == [];
  }

  lemma {:induction false} RunDense(m: Mode, run: seq<State>, actions: seq<Action>, k: nat)
    requires IsRun(m, run, actions) && m.gapless && k < |run| && AllHandNext(run, actions, k)
    ensures DenseInv(run[0].committed, run[k])
  {
    if k == 0 {
      InitialDense(m, run, actions);
    } else {
      AllHandOneMore(run, actions, k - 1);
      RunDense(m, run, actions, k - 1);
      RunKeeps(m, run, actions, k - 1);
      assert Next(m, run[k - 1], run[k], actions[k - 1]);
      StepDense(m, run[0].committed, run[k - 1], run[k], actions[k - 1]);
    }
  }

  /** Batch `h` was handed in by a fiber that a failure had spared, and is not the next one. */
  ghost predicate SparedGap(run: seq<State>, actions: seq<Action>, e: nat, h: nat, i: nat)
  {
    Spared(run, actions, e, h, i) && h < |actions| && Hands(actions[h], i) && !HandsNext(run[0].committed, run[h], i)
  }

  /** In a state without a gap, only a fiber that a failure has spared can hand in rows that are not the next ones. */
  lemma GapIsSpared(m: Mode, run: seq<State>, actions: seq<Action>, h: nat, i: nat) returns (e: nat)
    requires IsRun(m, run, actions) && h < |actions| && DenseInv(run[0].committed, run[h])
    requires Hands(actions[h], i) && !HandsNext(run[0].committed, run[h], i)
    ensures SparedGap(run, actions, e, h, i)
  {
    assert Next(m, run[h], run[h + 1], actions[h]);
    assert FiberDense(run[0].committed, run[h], i);
    if !run[h].fibers[i].cancelled { UncancelledHandsNext(run[0].committed, run[h], i); }
    e := CancelledWasSpared(m, run, actions, h, i);
  }

  /**
   With gap-free streams: what has entered has had no gap at any time exactly if no fiber
   that a failure spared in the middle of a transaction has handed in rows that are not
   the next ones.  Fibers that no failure found so need not be looked at.
   */
  lemma {:induction false} EnteredGapExactly(m: Mode, run: seq<State>, actions: seq<Action>, k: nat)
    requires IsRun(m, run, actions) && m.gapless && k <= |actions|
    ensures DenseTo(run, k) <==> !exists e: nat, h: nat, i: nat :: h < k && SparedGap(run, actions, e, h, i)
  {
    NoGapExactly(m, run, actions, k);
    if !AllHandNext(run, actions, k) { var e, h, i := FirstGap(m, run, actions, k); }
  }

  lemma {:induction false} FirstGap(m: Mode, run: seq<State>, actions: seq<Action>, k: nat) returns (e: nat, h: nat, i: nat)
    requires IsRun(m, run, actions) && m.gapless && k <= |actions| && !AllHandNext(run, actions, k)
    ensures h < k && SparedGap(run, actions, e, h, i)
  {
    AllHandOneMore(run, actions, k - 1);
    if !AllHandNext(run, actions, k - 1) {
      e, h, i := FirstGap(m, run, actions, k - 1);
    } else {
      RunDense(m, run, actions, k - 1);
      h := k - 1;
      i :| Hands(actions[h], i) && !HandsNext(run[0].committed, run[h], i);
      e := GapIsSpared(m, run, actions, h, i);
    }
  }

  // ---------------------------------------------------------------------------
  // Gaps in what is written
  // ---------------------------------------------------------------------------

  ghost predicate WalDenseTo(run: seq<State>, k: nat)
    requires k < |run|
  {
    forall j | 0 <= j <= k :: WalDense(run[0].committed, run[j])
  }

  /** The rows that fiber `i` handed in at step `h` are entry `q` of the journal of `s`, behind what had entered before them. */
  ghost predicate IsPending(run: seq<State>, h: nat, i: nat, s: State, q: nat)
    requires h < |run|
  {
    && i < |run[h].fibers| && run[h].fibers[i].phase.Applying? && q < |s.journal|
    && s.journal[q].rows == run[h].fibers[i].phase.rows && s.wal + RowsOf(s.journal[..q]) == Entered(run[h])
  }

  /** Step `j` writes the rows that fiber `i` handed in at step `h`. */
  ghost predicate WrittenAt(run: seq<State>, actions: seq<Action>, h: nat, i: nat, j: nat)
  {
    |run| == |actions| + 1 && h < j < |actions| && actions[j] == DoWrite && IsPending(run, h, i, run[j], 0)
  }

  /** If the log has no gap after rows are written, they were the next ones when they were handed in. */
  lemma WrittenWereNext(m: Mode, run: seq<State>, actions: seq<Action>, h: nat, i: nat, j: nat)
    requires IsRun(m, run, actions) && WrittenAt(run, actions, h, i, j) && WalDense(run[0].committed, run[j + 1])
    ensures HandsNext(run[0].committed, run[h], i)
  {
    RunKeeps(m, run, actions, h);
    assert FiberOK(m, run[0].committed, run[h], i);
    assert Next(m, run[j], run[j + 1], actions[j]);
    var rows := run[h].fibers[i].phase.rows;
    var o := rows[0].origin;
    assert run[j].wal + RowsOf([]) == run[j].wal && run[j + 1].wal == Entered(run[h]) + rows;
    OfConcat(Entered(run[h]), rows, o);
    OfTx(rows, o);
    var a := Of(Entered(run[h]), o);
    forall x | 0 <= x < |a| ensures a[x] == (a + rows)[x] { }
    DenseSplits(Get(run[0].committed, o), a, rows);
  }

  /** What stands between the log and the first gap in the journal, if there is one. */
  ghost predicate GapPending(run: seq<State>, actions: seq<Action>, k: nat, e: nat, h: nat, i: nat, q: nat)
    requires k < |run|
  {
    h < k && SparedGap(run, actions, e, h, i) && EnteredDense(run[0].committed, run[h]) && IsPending(run, h, i, run[k], q)
  }

  lemma PendingSteps(m: Mode, run: seq<State>, actions: seq<Action>, k: nat, e: nat, h: nat, i: nat, q: nat) returns (q': nat)
    requires IsRun(m, run, actions) && k < |actions| && GapPending(run, actions, k, e, h, i, q) && WalDense(run[0].committed, run[k + 1])
    requires actions[k] != DoFail
    ensures GapPending(run, actions, k + 1, e, h, i, q')
  {
    var s, s' := run[k], run[k + 1];
    assert Next(m, s, s', actions[k]);
    if actions[k] == DoWrite {
      if q == 0 {
        WrittenWereNext(m, run, actions, h, i, k);
        assert false;
      }
      q' := q - 1;
      RowsOfHead(s.journal[..q]);
      assert s.journal[..q][0] == s.journal[0] && s.journal[..q][1..] == s'.journal[..q'];
    } else {
      q' := q;
      assert s'.journal[..q] == s.journal[..q];
    }
  }

  /** Either nothing has a gap, or one is pending in the journal. */
  ghost predicate Accounted(run: seq<State>, actions: seq<Action>, k: nat, e: nat, h: nat, i: nat, q: nat)
    requires k < |run|
  {
    DenseInv(run[0].committed, run[k]) || GapPending(run, actions, k, e, h, i, q)
  }

  /** It is so while the log has no gap. */
  lemma Account(m: Mode, run: seq<State>, actions: seq<Action>, k: nat) returns (e: nat, h: nat, i: nat, q: nat)
    requires IsRun(m, run, actions) && m.gapless && k < |run| && WalDenseTo(run, k)
    ensures Accounted(run, actions, k, e, h, i, q)
  {
    e, h, i, q := 0, 0, 0, 0;
    InitialDense(m, run, actions);
    for j := 0 to k
      invariant Accounted(run, actions, j, e, h, i, q)
    {
      e, h, i, q := AccountStep(m, run, actions, j, e, h, i, q);
    }
  }

  lemma AccountStep(m: Mode, run: seq<State>, actions: seq<Action>, k: nat, e: nat, h: nat, i: nat, q: nat)
    returns (e': nat, h': nat, i': nat, q': nat)
    requires IsRun(m, run, actions) && m.gapless && k < |actions| && WalDense(run[0].committed, run[k]) && WalDense(run[0].committed, run[k + 1])
    requires Accounted(run, actions, k, e, h, i, q)
    ensures Accounted(run, actions, k + 1, e', h', i', q')
  {
    e', h', i', q' := e, h, i, q;
    if actions[k] == DoFail {
      AccountFail(m, run, actions, k);
    } else if GapPending(run, actions, k, e, h, i, q) {
      q' := PendingSteps(m, run, actions, k, e, h, i, q);
    } else if forall x: nat | Hands(actions[k], x) :: HandsNext(run[0].committed, run[k], x) {
      AccountNext(m, run, actions, k);
    } else {
      e', h', i', q' := AccountGap(m, run, actions, k);
    }
  }

  lemma AccountFail(m: Mode, run: seq<State>, actions: seq<Action>, k: nat)
    requires IsRun(m, run, actions) && k < |actions| && WalDense(run[0].committed, run[k]) && actions[k] == DoFail
    ensures DenseInv(run[0].committed, run[k + 1])
  {
    RunKeeps(m, run, actions, k);
    assert Next(m, run[k], run[k + 1], actions[k]);
    FailDense(m, run[0].committed, run[k], run[k + 1]);
  }

  lemma AccountNext(m: Mode, run: seq<State>, actions: seq<Action>, k: nat)
    requires IsRun(m, run, actions) && m.gapless && k < |actions| && DenseInv(run[0].committed, run[k])
    requires forall x: nat | Hands(actions[k], x) :: HandsNext(run[0].committed, run[k], x)
    ensures DenseInv(run[0].committed, run[k + 1])
  {
    RunKeeps(m, run, actions, k);
    assert Next(m, run[k], run[k + 1], actions[k]);
    StepDense(m, run[0].committed, run[k], run[k + 1], actions[k]);
  }

  lemma AccountGap(m: Mode, run: seq<State>, actions: seq<Action>, k: nat) returns (e: nat, h: nat, i: nat, q: nat)
    requires IsRun(m, run, actions) && k < |actions| && DenseInv(run[0].committed, run[k])
    requires exists x: nat :: Hands(actions[k], x) && !HandsNext(run[0].committed, run[k], x)
    ensures GapPending(run, actions, k + 1, e, h, i, q)
  {
    h, q := k, |run[k].journal|;
    i :| Hands(actions[k], i) && !HandsNext(run[0].committed, run[k], i);
    e := GapIsSpared(m, run, actions, k, i);
    assert Next(m, run[k], run[k + 1], actions[k]);
    HandedPends(m, run[k], run[k + 1], actions[k], i);
    InvIsDense(run[0].committed, run[k]);
  }

  /** Handed rows go to the end of the journal. */
  lemma HandedPends(m: Mode, s: State, s': State, a: Action, i: nat)
    requires Next(m, s, s', a) && Hands(a, i)
    ensures i < |s.fibers| && s.fibers[i].phase.Applying? && |s'.journal| == |s.journal| + 1
    ensures s'.journal[|s.journal|].rows == s.fibers[i].phase.rows && s'.wal == s.wal && s'.journal[..|s.journal|] == s.journal
  {
  }

  lemma InvIsDense(base: VClock, s: State)
    requires DenseInv(base, s)
    ensures EnteredDense(base, s)
  {
    forall o: nat ensures Dense(Get(base, o), Of(Entered(s), o)) { assert OriginDense(base, s, o); }
  }

  /**
   With gap-free streams: the log has had no gap at any time exactly if no rows have been
   written that a spared fiber had handed in and that were not the next ones.
   */
  lemma {:induction false} WrittenGapExactly(m: Mode, run: seq<State>, actions: seq<Action>, k: nat)
    requires IsRun(m, run, actions) && m.gapless && k <= |actions|
    ensures WalDenseTo(run, k) <==> !exists e: nat, h: nat, i: nat, j: nat :: j < k && SparedGap(run, actions, e, h, i) && WrittenAt(run, actions, h, i, j)
  {
    if WalDenseTo(run, k) {
      forall e: nat, h: nat, i: nat, j: nat | j < k && WrittenAt(run, actions, h, i, j) ensures !SparedGap(run, actions, e, h, i) {
        WrittenWereNext(m, run, actions, h, i, j);
      }
    } else {
      var e, h, i, j := FirstWrittenGap(m, run, actions, k);
    }
  }

  lemma {:induction false} FirstWrittenGap(m: Mode, run: seq<State>, actions: seq<Action>, k: nat) returns (e: nat, h: nat, i: nat, j: nat)
    requires IsRun(m, run, actions) && m.gapless && k <= |actions| && !WalDenseTo(run, k)
    ensures j < k && SparedGap(run, actions, e, h, i) && WrittenAt(run, actions, h, i, j)
  {
    assert k > 0 by { assert run[0].wal == []; }
    if !WalDenseTo(run, k - 1) {
      e, h, i, j := FirstWrittenGap(m, run, actions, k - 1);
    } else {
      j := k - 1;
      var q;
      e, h, i, q := Account(m, run, actions, j);
      assert Next(m, run[j], run[k], actions[j]);
      assert actions[j] == DoWrite;
      WrittenHasGap(m, run, actions, j, e, h, i, q);
    }
  }

  /** A write that opens the first gap writes the rows that stand there. */
  lemma WrittenHasGap(m: Mode, run: seq<State>, actions: seq<Action>, j: nat, e: nat, h: nat, i: nat, q: nat)
    requires IsRun(m, run, actions) && j < |actions| && actions[j] == DoWrite && !WalDense(run[0].committed, run[j + 1])
    requires Accounted(run, actions, j, e, h, i, q)
    ensures SparedGap(run, actions, e, h, i) && WrittenAt(run, actions, h, i, j)
  {
    assert Next(m, run[j], run[j + 1], actions[j]);
    if !GapPending(run, actions, j, e, h, i, q) {
      DenseIsWritten(m, run[0].committed, run[j], run[j + 1]);
    } else if q > 0 {
      BeforeGapIsWritten(m, run[0].committed, run[j], run[j + 1], Entered(run[h]), q);
    }
  }

  lemma BeforeGapIsWritten(m: Mode, base: VClock, s: State, s': State, all: seq<Row>, q: nat)
    requires Write(m, s, s') && 0 < q < |s.journal| && s.wal + RowsOf(s.journal[..q]) == all && forall o: nat :: Dense(Get(base, o), Of(all, o))
    ensures WalDense(base, s')
  {
    RowsOfHead(s.journal[..q]);
    assert s.journal[..q][0] == s.journal[0];
    PrefixesDense(base, all, s', RowsOf(s.journal[..q][1..]));
  }

  lemma DenseIsWritten(m: Mode, base: VClock, s: State, s': State)
    requires DenseInv(base, s) && Write(m, s, s')
    ensures WalDense(base, s')
  {
    InvIsDense(base, s);
    EnteredWrite(s, s');
    PrefixesDense(base, Entered(s'), s', RowsOf(s'.journal));
  }

  lemma PrefixesDense(base: VClock, all: seq<Row>, s: State, rest: seq<Row>)
    requires all == s.wal + rest && forall o: nat :: Dense(Get(base, o), Of(all, o))
    ensures WalDense(base, s)
  {
    forall o: nat ensures Dense(Get(base, o), Of(s.wal, o)) { PrefixDense(base, all, s.wal, rest, o); }
  }

  /** No failure of the run finds an applier in the middle of a transaction that it lets go on. */
  ghost predicate SparesNobody(m: Mode, run: seq<State>, actions: seq<Action>)
  {
    && |run| == |actions| + 1
    && forall k, i | 0 <= k < |actions| && actions[k] == DoFail && 0 <= i < |run[k].fibers| && InHand(run[k].fibers[i]) :: StopsNow(m, run[k].fibers[i])
  }

  lemma NotSpared(m: Mode, run: seq<State>, actions: seq<Action>, e: nat, i: nat)
    requires IsRun(m, run, actions) && SparesNobody(m, run, actions)
    requires e < |actions| && actions[e] == DoFail && i < |run[e].fibers| && InHand(run[e].fibers[i])
    ensures i < |run[e + 1].fibers| && run[e + 1].fibers[i].phase.Stopped?
  {
    assert Next(m, run[e], run[e + 1], actions[e]);
  }

  /**
   No gaps.  If streams are gap-free from the subscribe clock and no failure of the run
   spares an applier in the middle of a transaction, the written rows of an origin are a
   gap-free prefix of its history: all LSNs from the recovered one up to the committed
   one, each once.
   */
  lemma CommittedIsPrefix(m: Mode, run: seq<State>, actions: seq<Action>, k: nat, o: nat)
    requires IsRun(m, run, actions) && k < |run| && SparesNobody(m, run, actions) && m.gapless
    ensures Dense(Get(run[0].committed, o), Of(run[k].wal, o))
    ensures Get(run[k].committed, o) == Get(run[0].committed, o) + |Of(run[k].wal, o)|
  {
    WrittenGapExactly(m, run, actions, k);
    forall e: nat, h: nat, i: nat ensures !SparedGap(run, actions, e, h, i) {
      if Spared(run, actions, e, h, i) { NotSpared(m, run, actions, e, i); }
    }
    assert WalDense(run[0].committed, run[k]);
    RowsEnterInOrder(m, run, actions, k, o);
  }

  /** If failures are prompt, no run has a gap. */
  lemma PromptIsPrefix(m: Mode, run: seq<State>, actions: seq<Action>, k: nat, o: nat)
    requires IsRun(m, run, actions) && k < |run| && m.prompt && m.gapless
    ensures Dense(Get(run[0].committed, o), Of(run[k].wal, o))
    ensures Get(run[k].committed, o) == Get(run[0].committed, o) + |Of(run[k].wal, o)|
  {
    CommittedIsPrefix(m, run, actions, k, o);
  }

  // ---------------------------------------------------------------------------
  // What happens when a failure does not stop an applier at once
  // ---------------------------------------------------------------------------

  const SLOW: Mode := Mode(o => o, false, true)

  /** One applier that has the given phase and has seen `seen` rows of origin 1. */
  function One(phase: Phase, cancelled: bool, seen: nat, locked: bool, applied: nat, committed: nat, journal: seq<Entry>, wal: seq<Row>): State
  {
    State([Fiber(phase, cancelled, Clock(seen))], if locked then map[1 := 0] else map[], Clock(applied), Clock(committed), journal, wal)
  }

  function Clock(n: nat): VClock
  {
    if n == 0 then map[] else map[1 := n]
  }

  lemma OneReceives(n: nat, applied: nat, journal: seq<Entry>)
    ensures Receive(SLOW, One(Idle, false, n, false, applied, 0, journal, []), One(Waiting([Row(1, n + 1)]), false, n + 1, false, applied, 0, journal, []), 0, [Row(1, n + 1)])
  {
    assert Clock(n)[1 := n + 1] == Clock(n + 1);
  }

  lemma OneLocks(n: nat, journal: seq<Entry>)
    ensures Lock(SLOW, One(Waiting([Row(1, n + 1)]), false, n + 1, false, n, 0, journal, []), One(Applying([Row(1, n + 1)]), false, n + 1, true, n, 0, journal, []), 0)
  {
    assert Unapplied([Row(1, n + 1)], Clock(n)) == [Row(1, n + 1)];
  }

  lemma OneSubmits(n: nat, cancelled: bool, applied: nat, journal: seq<Entry>)
    ensures Submit(SLOW, One(Applying([Row(1, n + 1)]), cancelled, n + 1, true, applied, 0, journal, []),
                   One(if cancelled then Stopped else Idle, cancelled, n + 1, false, n + 1, 0, journal + [Entry([Row(1, n + 1)], None)], []), 0)
  {
    var s := One(Applying([Row(1, n + 1)]), cancelled, n + 1, true, applied, 0, journal, []);
    assert Unlock(SLOW, s, 1) == map[];
    assert s.applied[1 := n + 1] == Clock(n + 1);
  }

  lemma OneFails(n: nat, e: Entry)
    ensures Fail(SLOW, One(Applying([Row(1, n + 1)]), false, n + 1, true, n, 0, [e], []), One(Applying([Row(1, n + 1)]), true, n + 1, true, 0, 0, [], []))
  {
    var s := One(Applying([Row(1, n + 1)]), false, n + 1, true, n, 0, [e], []);
    assert Released(SLOW, s) == {};
    assert s.latch - Released(SLOW, s) == s.latch;
  }

  lemma Extend(m: Mode, run: seq<State>, actions: seq<Action>, s: State, a: Action)
    requires IsRun(m, run, actions) && Next(m, run[|run| - 1], s, a)
    ensures IsRun(m, run + [s], actions + [a])
  {
    var run', actions' := run + [s], actions + [a];
    forall k | 0 <= k < |actions'| ensures Next(m, run'[k], run'[k + 1], actions'[k]) {
      if k < |actions| { assert run'[k] == run[k] && run'[k + 1] == run[k + 1] && actions'[k] == actions[k]; }
    }
  }

  lemma OneSubscribes()
    ensures IsRun(SLOW, [One(Stopped, false, 0, false, 0, 0, [], []), One(Idle, false, 0, false, 0, 0, [], [])], [DoSubscribe(0)])
  {
  }

  /** The journal writes the second transaction. */
  lemma OneWrites()
    ensures Write(SLOW, One(Stopped, true, 2, false, 2, 0, [Entry([Row(1, 2)], None)], []), One(Stopped, true, 2, false, 2, 2, [], [Row(1, 2)]))
  {
    var e := Entry([Row(1, 2)], None);
    assert [e][1..] == [] && [] + e.rows == [Row(1, 2)];
  }

  lemma SecondIsNotDense()
    ensures !Dense(0, Of([Row(1, 2)], 1))
  {
    assert [Row(1, 2)][..0] == [] && Of([Row(1, 2)], 1) == [Row(1, 2)];
  }

  /**
   Without a prompt stop there can be a gap: one applier, two transactions of origin 1,
   and the journal fails the first while the second is being applied.
   */
  lemma GapWithoutPromptStop() returns (run: seq<State>, actions: seq<Action>)
    ensures IsRun(SLOW, run, actions) && Get(run[0].committed, 1) == 0
    ensures run[|run| - 1].wal == [Row(1, 2)] && !Dense(0, Of(run[|run| - 1].wal, 1))
  {
    OneSubscribes();
    run, actions := [One(Stopped, false, 0, false, 0, 0, [], []), One(Idle, false, 0, false, 0, 0, [], [])], [DoSubscribe(0)];
    run, actions := GapFirst(run, actions);
    run, actions := GapSecond(run, actions);
    OneWrites();
    var s := One(Stopped, true, 2, false, 2, 2, [], [Row(1, 2)]);
    Extend(SLOW, run, actions, s, DoWrite);
    run, actions := run + [s], actions + [DoWrite];
    SecondIsNotDense();
  }

  /** The first transaction is handed to the journal. */
  lemma GapFirst(run: seq<State>, actions: seq<Action>) returns (run': seq<State>, actions': seq<Action>)
    requires IsRun(SLOW, run, actions) && run[|run| - 1] == One(Idle, false, 0, false, 0, 0, [], [])
    ensures IsRun(SLOW, run', actions') && run'[0] == run[0] && run'[|run'| - 1] == One(Idle, false, 1, false, 1, 0, [Entry([Row(1, 1)], None)], [])
  {
    var r := [Row(1, 1)];
    var s2, s3, s4 := One(Waiting(r), false, 1, false, 0, 0, [], []), One(Applying(r), false, 1, true, 0, 0, [], []), One(Idle, false, 1, false, 1, 0, [Entry(r, None)], []);
    OneReceives(0, 0, []);
    Extend(SLOW, run, actions, s2, DoReceive(0, r));
    OneLocks(0, []);
    Extend(SLOW, run + [s2], actions + [DoReceive(0, r)], s3, DoLock(0));
    OneSubmits(0, false, 0, []);
    Extend(SLOW, run + [s2] + [s3], actions + [DoReceive(0, r)] + [DoLock(0)], s4, DoSubmit(0));
    run', actions' := run + [s2] + [s3] + [s4], actions + [DoReceive(0, r)] + [DoLock(0)] + [DoSubmit(0)];
  }

  /** The second is being applied when the first fails, and is handed to the journal all the same. */
  lemma GapSecond(run: seq<State>, actions: seq<Action>) returns (run': seq<State>, actions': seq<Action>)
    requires IsRun(SLOW, run, actions) && run[|run| - 1] == One(Idle, false, 1, false, 1, 0, [Entry([Row(1, 1)], None)], [])
    ensures IsRun(SLOW, run', actions') && run'[0] == run[0] && run'[|run'| - 1] == One(Stopped, true, 2, false, 2, 0, [Entry([Row(1, 2)], None)], [])
  {
    var r, j := [Row(1, 2)], [Entry([Row(1, 1)], None)];
    var s5, s6 := One(Waiting(r), false, 2, false, 1, 0, j, []), One(Applying(r), false, 2, true, 1, 0, j, []);
    OneReceives(1, 1, j);
    Extend(SLOW, run, actions, s5, DoReceive(0, r));
    OneLocks(1, j);
    Extend(SLOW, run + [s5], actions + [DoReceive(0, r)], s6, DoLock(0));
    run', actions' := run + [s5] + [s6], actions + [DoReceive(0, r)] + [DoLock(0)];
    var s7, s8 := One(Applying(r), true, 2, true, 0, 0, [], []), One(Stopped, true, 2, false, 2, 0, [Entry(r, None)], []);
    OneFails(1, j[0]);
    Extend(SLOW, run', actions', s7, DoFail);
    OneSubmits(1, true, 0, []);
    Extend(SLOW, run' + [s7], actions' + [DoFail], s8, DoSubmit(0));
    run', actions' := run' + [s7] + [s8], actions' + [DoFail] + [DoSubmit(0)];
  }
}
