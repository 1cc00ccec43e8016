/**
 Several appliers of one replica, as a step relation.  Each applier fiber receives
 transactions of several origins; the latch of an origin orders the fibers that apply
 its rows; rows go to a journal that writes or fails them later, and a failure fails
 everything that is still pending and cancels all appliers.  A step is what a fiber or
 the journal does between two yields.
 */
module Applier {
  import opened Options
  import opened VClocks

  /** A row is known by its origin and its LSN. */
  datatype Row = Row(origin: nat, lsn: nat)

  /** What an applier fiber is doing.  From `Applying` to the end of `Written` it holds the latch of the origin. */
  datatype Phase =
    | Stopped
    | Idle
    | Waiting(tx: seq<Row>)
    | Applying(rows: seq<Row>)
    | Writing(row: Row)
    | Written(row: Row)

  /** `seen` is the last LSN that the stream has given, by origin. */
  datatype Fiber = Fiber(phase: Phase, cancelled: bool, seen: VClock)

  /** A journal entry; the owner of a synchro entry waits for it. */
  datatype Entry = Entry(rows: seq<Row>, owner: Option<nat>)

  datatype State = State(fibers: seq<Fiber>, latch: map<nat, nat>, applied: VClock, committed: VClock, journal: seq<Entry>, wal: seq<Row>)

  /**
   `key` gives the latch of an origin.  If `prompt`, a failure stops the appliers that
   are in the middle of a transaction too.  If `gapless`, every stream is gap-free from
   the clock with which the applier subscribed.
   */
  datatype Mode = Mode(key: nat -> nat, prompt: bool, gapless: bool)

  // ---------------------------------------------------------------------------
  // Rows
  // ---------------------------------------------------------------------------

  /** The rows of one origin, in order. */
  ghost predicate IsTx(rows: seq<Row>)
  {
    && rows != [] && rows[0].lsn > 0
    && (forall i | 0 <= i < |rows| :: rows[i].origin == rows[0].origin)
    && (forall i, j | 0 <= i < j < |rows| :: rows[i].lsn < rows[j].lsn)
  }

  /** No LSN is missing. */
  ghost predicate Contiguous(rows: seq<Row>)
  {
    forall i | 0 <= i < |rows| :: rows[i].lsn == rows[0].lsn + i
  }

  function Last(rows: seq<Row>): Row
    requires rows != []
  {
    rows[|rows| - 1]
  }

  /** The part that has not been applied. */
  function Unapplied(rows: seq<Row>, v: VClock): seq<Row>
  {
    if rows == [] || rows[0].lsn > Get(v, rows[0].origin) then rows else Unapplied(rows[1..], v)
  }

  /** The rows of origin `o`. */
  function Of(rows: seq<Row>, o: nat): seq<Row>
  {
    if rows == [] then []
    else Of(rows[..|rows| - 1], o) + if Last(rows).origin == o then [Last(rows)] else []
  }

  /** All rows of the journal. */
  function RowsOf(journal: seq<Entry>): seq<Row>
  {
    if journal == [] then [] else RowsOf(journal[..|journal| - 1]) + journal[|journal| - 1].rows
  }

  /** The rows that have entered the journal and not failed, oldest first. */
  function Entered(s: State): seq<Row>
  {
    s.wal + RowsOf(s.journal)
  }

  // ---------------------------------------------------------------------------
  // Steps
  // ---------------------------------------------------------------------------

  predicate LatchFree(m: Mode, s: State, o: nat)
  {
    m.key(o) !in s.latch
  }

  function Unlock(m: Mode, s: State, o: nat): map<nat, nat>
  {
    s.latch - {m.key(o)}
  }

  /** The phase of a fiber that is done with a transaction. */
  function Done(f: Fiber): Phase
  {
    if f.cancelled then Stopped else Idle
  }

  function SetPhase(s: State, i: nat, p: Phase): seq<Fiber>
    requires i < |s.fibers|
  {
    s.fibers[i := s.fibers[i].(phase := p)]
  }

  /** A new connection: subscribe with the committed clock. */
  ghost predicate Subscribe(m: Mode, s: State, s': State, i: nat)
  {
    && i < |s.fibers| && s.fibers[i].phase == Stopped
    && s' == s.(fibers := s.fibers[i := Fiber(Idle, false, s.committed)])
  }

  /** Read a transaction from the stream. */
  ghost predicate Receive(m: Mode, s: State, s': State, i: nat, tx: seq<Row>)
  {
    && i < |s.fibers| && s.fibers[i].phase == Idle && IsTx(tx)
    && (m.gapless ==> Contiguous(tx) && tx[0].lsn == Get(s.fibers[i].seen, tx[0].origin) + 1)
    && s' == s.(fibers := s.fibers[i := s.fibers[i].(phase := Waiting(tx), seen := s.fibers[i].seen[tx[0].origin := Last(tx).lsn])])
  }

  /** Get the latch and find that the transaction has been applied. */
  ghost predicate Skip(m: Mode, s: State, s': State, i: nat)
  {
    && i < |s.fibers| && s.fibers[i].phase.Waiting?
    && var tx := s.fibers[i].phase.tx;
       && tx != [] && LatchFree(m, s, tx[0].origin) && Get(s.applied, tx[0].origin) >= Last(tx).lsn
       && s' == s.(fibers := SetPhase(s, i, Done(s.fibers[i])))
  }

  /** Get the latch and start to apply the rows that have not been applied. */
  ghost predicate Lock(m: Mode, s: State, s': State, i: nat)
  {
    && i < |s.fibers| && s.fibers[i].phase.Waiting?
    && var tx := s.fibers[i].phase.tx;
       && tx != [] && LatchFree(m, s, tx[0].origin) && Get(s.applied, tx[0].origin) < Last(tx).lsn
       && s' == s.(fibers := SetPhase(s, i, Applying(Unapplied(tx, s.applied))), latch := s.latch[m.key(tx[0].origin) := i])
  }

  /** Applying a row fails: the applier stops. */
  ghost predicate Abort(m: Mode, s: State, s': State, i: nat)
  {
    && i < |s.fibers| && s.fibers[i].phase.Applying? && s.fibers[i].phase.rows != []
    && s' == s.(fibers := SetPhase(s, i, Stopped), latch := Unlock(m, s, s.fibers[i].phase.rows[0].origin))
  }

  /** Hand the rows to the journal, advance the applier clock, release the latch. */
  ghost predicate Submit(m: Mode, s: State, s': State, i: nat)
  {
    && i < |s.fibers| && s.fibers[i].phase.Applying? && s.fibers[i].phase.rows != []
    && var rows := s.fibers[i].phase.rows;
       s' == s.(fibers := SetPhase(s, i, Done(s.fibers[i])), latch := Unlock(m, s, rows[0].origin),
                journal := s.journal + [Entry(rows, None)], applied := s.applied[rows[0].origin := Last(rows).lsn])
  }

  /** Hand a synchro row to the journal and wait for it, with the latch held. */
  ghost predicate SubmitSynchro(m: Mode, s: State, s': State, i: nat)
  {
    && i < |s.fibers| && s.fibers[i].phase.Applying? && |s.fibers[i].phase.rows| == 1
    && var row := s.fibers[i].phase.rows[0];
       s' == s.(fibers := SetPhase(s, i, Writing(row)), journal := s.journal + [Entry([row], Some(i))])
  }

  /** The journal has written its oldest entry. */
  ghost predicate Write(m: Mode, s: State, s': State)
  {
    && s.journal != [] && s.journal[0].rows != []
    && var e := s.journal[0];
       s' == s.(journal := s.journal[1..], wal := s.wal + e.rows, committed := s.committed[e.rows[0].origin := Last(e.rows).lsn],
                fibers := WakeOwner(s.fibers, e))
  }

  function WakeOwner(fibers: seq<Fiber>, e: Entry): seq<Fiber>
  {
    if e.owner.Some? && e.owner.value < |fibers| && fibers[e.owner.value].phase.Writing?
    then fibers[e.owner.value := fibers[e.owner.value].(phase := Written(fibers[e.owner.value].phase.row))]
    else fibers
  }

  /** The owner of a written synchro row goes on: advance the applier clock, release the latch. */
  ghost predicate Follow(m: Mode, s: State, s': State, i: nat)
  {
    && i < |s.fibers| && s.fibers[i].phase.Written?
    && var row := s.fibers[i].phase.row;
       s' == s.(fibers := SetPhase(s, i, Done(s.fibers[i])), latch := Unlock(m, s, row.origin), applied := s.applied[row.origin := row.lsn])
  }

  /**
   The journal fails, and with its oldest entry everything pending.  All appliers are
   cancelled, and the applier clock goes back to the committed one.  The owners of failed
   synchro rows release their latches.
   */
  ghost predicate Fail(m: Mode, s: State, s': State)
  {
    && s.journal != []
    && s' == s.(journal := [], applied := s.committed, fibers := Cancelled(m, s.fibers), latch := s.latch - Released(m, s))
  }

  /** A failure stops this fiber at once. */
  predicate StopsNow(m: Mode, f: Fiber)
  {
    f.phase.Stopped? || f.phase.Idle? || f.phase.Writing? || m.prompt
  }

  function Cancelled(m: Mode, fibers: seq<Fiber>): seq<Fiber>
  {
    seq(|fibers|, i requires 0 <= i < |fibers| => if StopsNow(m, fibers[i]) then fibers[i].(phase := Stopped) else fibers[i].(cancelled := true))
  }

  /** The latches held by fibers that stop. */
  ghost function Released(m: Mode, s: State): set<nat>
  {
    set k | k in s.latch && s.latch[k] < |s.fibers| && StopsNow(m, s.fibers[s.latch[k]])
  }

  datatype Action =
    | DoSubscribe(i: nat) | DoReceive(i: nat, tx: seq<Row>) | DoSkip(i: nat) | DoLock(i: nat) | DoAbort(i: nat)
    | DoSubmit(i: nat) | DoSubmitSynchro(i: nat) | DoWrite | DoFollow(i: nat) | DoFail

  ghost predicate Next(m: Mode, s: State, s': State, a: Action)
  {
    match a
    case DoSubscribe(i) => Subscribe(m, s, s', i)
    case DoReceive(i, tx) => Receive(m, s, s', i, tx)
    case DoSkip(i) => Skip(m, s, s', i)
    case DoLock(i) => Lock(m, s, s', i)
    case DoAbort(i) => Abort(m, s, s', i)
    case DoSubmit(i) => Submit(m, s, s', i)
    case DoSubmitSynchro(i) => SubmitSynchro(m, s, s', i)
    case DoWrite => Write(m, s, s')
    case DoFollow(i) => Follow(m, s, s', i)
    case DoFail => Fail(m, s, s')
  }

  /** Everything recovered, nothing running. */
  ghost predicate Initial(s: State)
  {
    && (forall i | 0 <= i < |s.fibers| :: s.fibers[i].phase == Stopped)
    && s.latch == map[] && s.applied == s.committed && s.journal == [] && s.wal == []
  }

  /** `run` is a run: it starts anywhere initial and takes the given actions. */
  ghost predicate IsRun(m: Mode, run: seq<State>, actions: seq<Action>)
  {
    && |run| == |actions| + 1 && Initial(run[0])
    && forall k | 0 <= k < |actions| :: Next(m, run[k], run[k + 1], actions[k])
  }

  // ---------------------------------------------------------------------------
  // Rows of one origin
  // ---------------------------------------------------------------------------

  lemma {:induction false} OfConcat(a: seq<Row>, b: seq<Row>, o: nat)
    ensures Of(a + b, o) == Of(a, o) + Of(b, o)
  {
    if b == [] {
      assert a + b == a;
    } else {
      OfConcat(a, b[..|b| - 1], o);
      assert (a + b)[..|a + b| - 1] == a + b[..|b| - 1];
    }
  }

  lemma {:induction false} OfTx(rows: seq<Row>, o: nat)
    requires forall i | 0 <= i < |rows| :: rows[i].origin == rows[0].origin
    ensures Of(rows, o) == if rows != [] && rows[0].origin == o then rows else []
  {
    if rows != [] {
      OfTx(rows[..|rows| - 1], o);
      assert rows == rows[..|rows| - 1] + [Last(rows)];
    }
  }

  lemma {:induction false} RowsOfHead(journal: seq<Entry>)
    requires journal != []
    ensures RowsOf(journal) == journal[0].rows + RowsOf(journal[1..])
  {
    var n := |journal|;
    if n == 1 {
      assert journal[..0] == [] && journal[1..] == [];
    } else {
      var init, tail := journal[..n - 1], journal[1..];
      RowsOfHead(init);
      assert init[0] == journal[0] && init[1..] == tail[..n - 2] && tail[n - 2] == journal[n - 1];
      assert RowsOf(tail) == RowsOf(tail[..n - 2]) + journal[n - 1].rows;
      assert RowsOf(journal) == (journal[0].rows + RowsOf(tail[..n - 2])) + journal[n - 1].rows;
    }
  }

  lemma RowsOfLast(journal: seq<Entry>, e: Entry)
    ensures RowsOf(journal + [e]) == RowsOf(journal) + e.rows
  {
    assert (journal + [e])[..|journal|] == journal;
  }

  /** The rows of an origin after a transaction is appended. */
  lemma EnteredAppend(s: State, s': State, e: Entry, o: nat)
    requires s'.wal == s.wal && s'.journal == s.journal + [e] && IsTx(e.rows)
    ensures Of(Entered(s'), o) == Of(Entered(s), o) + if e.rows[0].origin == o then e.rows else []
  {
    RowsOfLast(s.journal, e);
    assert Entered(s') == Entered(s) + e.rows;
    OfConcat(Entered(s), e.rows, o);
    OfTx(e.rows, o);
  }

  /** Writing an entry moves it, and changes nothing else about what has entered. */
  lemma EnteredWrite(s: State, s': State)
    requires s.journal != [] && s'.journal == s.journal[1..] && s'.wal == s.wal + s.journal[0].rows
    ensures Entered(s') == Entered(s)
  {
    RowsOfHead(s.journal);
  }

  lemma EnteredFail(s: State, s': State, o: nat)
    requires s'.journal == [] && s'.wal == s.wal
    ensures Of(Entered(s'), o) == Of(s.wal, o) && Of(s.wal, o) <= Of(Entered(s), o)
  {
    assert Entered(s') == s.wal;
    OfConcat(s.wal, RowsOf(s.journal), o);
  }

  /** LSNs go up, from above `base`. */
  ghost predicate Rising(base: nat, rows: seq<Row>)
  {
    && (forall i | 0 <= i < |rows| :: rows[i].lsn > base)
    && (forall i, j | 0 <= i < j < |rows| :: rows[i].lsn < rows[j].lsn)
  }

  function TopOf(base: nat, rows: seq<Row>): nat
  {
    if rows == [] then base else Last(rows).lsn
  }

  lemma RisingAppend(base: nat, a: seq<Row>, b: seq<Row>)
    requires Rising(base, a) && IsTx(b) && TopOf(base, a) < b[0].lsn
    ensures Rising(base, a + b) && TopOf(base, a + b) == Last(b).lsn
  {
  }

  lemma RisingPrefix(base: nat, a: seq<Row>, b: seq<Row>)
    requires Rising(base, b) && a <= b
    ensures Rising(base, a) && TopOf(base, a) <= TopOf(base, b)
  {
    forall i | 0 <= i < |a| ensures a[i] == b[i] { }
  }

  lemma {:induction false} UnappliedIsTx(tx: seq<Row>, v: VClock)
    requires IsTx(tx) && Get(v, tx[0].origin) < Last(tx).lsn
    ensures var rows := Unapplied(tx, v);
            IsTx(rows) && rows[0].origin == tx[0].origin && rows[0].lsn > Get(v, tx[0].origin) && Last(rows) == Last(tx)
    ensures Contiguous(tx) && tx[0].lsn <= Get(v, tx[0].origin) + 1 ==> Contiguous(Unapplied(tx, v)) && Unapplied(tx, v)[0].lsn == Get(v, tx[0].origin) + 1
  {
    if tx[0].lsn <= Get(v, tx[0].origin) {
      assert tx[1..] != [] && Last(tx[1..]) == Last(tx);
      if Contiguous(tx) {
        forall i | 0 <= i < |tx[1..]| ensures tx[1..][i].lsn == tx[1..][0].lsn + i { assert tx[1..][i] == tx[i + 1]; }
      }
      UnappliedIsTx(tx[1..], v);
    }
  }

  // ---------------------------------------------------------------------------
  // Order: what every step keeps
  // ---------------------------------------------------------------------------

  /** The highest LSN of an origin that has entered. */
  function Top(base: VClock, s: State, o: nat): nat
  {
    TopOf(Get(base, o), Of(Entered(s), o))
  }

  /** The row that a fiber waits for, or has just written. */
  predicate Writes(f: Fiber, o: nat)
  {
    (f.phase.Writing? || f.phase.Written?) && f.phase.row.origin == o
  }

  ghost predicate HasWriter(s: State, o: nat)
  {
    exists i :: 0 <= i < |s.fibers| && Writes(s.fibers[i], o)
  }

  ghost predicate Holds(m: Mode, s: State, i: nat, o: nat)
  {
    m.key(o) in s.latch && s.latch[m.key(o)] == i
  }

  ghost predicate OriginOK(m: Mode, base: VClock, s: State, o: nat)
  {
    && Rising(Get(base, o), Of(Entered(s), o))
    && Get(s.committed, o) == TopOf(Get(base, o), Of(s.wal, o))
    && (Top(base, s, o) <= Get(s.applied, o) || HasWriter(s, o))
  }

  ghost predicate FiberOK(m: Mode, base: VClock, s: State, i: nat)
  {
    && i < |s.fibers|
    && match s.fibers[i].phase
       case Stopped => true
       case Idle => !s.fibers[i].cancelled
       case Waiting(tx) => IsTx(tx)
       case Applying(rows) => IsTx(rows) && Holds(m, s, i, rows[0].origin) && Top(base, s, rows[0].origin) < rows[0].lsn && Get(s.applied, rows[0].origin) < rows[0].lsn
       case Writing(row) => Holds(m, s, i, row.origin) && Top(base, s, row.origin) <= row.lsn && Get(s.applied, row.origin) < row.lsn
       case Written(row) => Holds(m, s, i, row.origin) && Top(base, s, row.origin) <= row.lsn && Get(s.applied, row.origin) <= row.lsn
                            && Get(s.committed, row.origin) == row.lsn
                            && (m.prompt ==> Get(s.applied, row.origin) < row.lsn)
  }

  ghost predicate EntryOK(s: State, k: nat)
  {
    && k < |s.journal| && IsTx(s.journal[k].rows)
    && (s.journal[k].owner.Some? ==>
          && s.journal[k].owner.value < |s.fibers|
          && s.fibers[s.journal[k].owner.value].phase == Writing(s.journal[k].rows[0])
          && |s.journal[k].rows| == 1)
  }

  ghost predicate JournalOK(s: State)
  {
    && (forall k: nat | k < |s.journal| :: EntryOK(s, k))
    && (forall j, k | 0 <= j < k < |s.journal| && s.journal[j].owner.Some? :: s.journal[j].owner != s.journal[k].owner)
  }

  ghost predicate Inv(m: Mode, base: VClock, s: State)
  {
    && (forall o: nat :: OriginOK(m, base, s, o))
    && (forall i: nat | i < |s.fibers| :: FiberOK(m, base, s, i))
    && JournalOK(s)
  }

  /** While the latch of an origin is free, nobody writes its rows. */
  lemma FreeLatch(m: Mode, base: VClock, s: State, o: nat)
    requires Inv(m, base, s) && LatchFree(m, s, o)
    ensures Top(base, s, o) <= Get(s.applied, o)
  {
    assert OriginOK(m, base, s, o);
    forall i: nat | i < |s.fibers| ensures !Writes(s.fibers[i], o) { assert FiberOK(m, base, s, i); }
  }

  /** A fiber that holds no latch turns to something else that holds none. */
  lemma FiberTurns(m: Mode, base: VClock, s: State, s': State, i: nat, f: Fiber)
    requires Inv(m, base, s) && i < |s.fibers| && s' == s.(fibers := s.fibers[i := f])
    requires s.fibers[i].phase.Stopped? || s.fibers[i].phase.Idle? || s.fibers[i].phase.Waiting?
    requires f.phase.Stopped? || (f.phase.Idle? && !f.cancelled) || (f.phase.Waiting? && IsTx(f.phase.tx))
    ensures Inv(m, base, s')
  {
    forall o: nat ensures OriginOK(m, base, s', o) {
      assert OriginOK(m, base, s, o);
      WriterStays(s, s', i, o);
    }
    forall j: nat | j < |s'.fibers| ensures FiberOK(m, base, s', j) { assert FiberOK(m, base, s, j); }
    forall k: nat | k < |s'.journal| ensures EntryOK(s', k) { assert EntryOK(s, k); }
  }

  lemma WriterStays(s: State, s': State, i: nat, o: nat)
    requires |s'.fibers| == |s.fibers| && i < |s.fibers| && !Writes(s.fibers[i], o)
    requires forall j | 0 <= j < |s.fibers| && j != i :: s'.fibers[j] == s.fibers[j]
    ensures HasWriter(s, o) ==> HasWriter(s', o)
  {
    if HasWriter(s, o) {
      var j :| 0 <= j < |s.fibers| && Writes(s.fibers[j], o);
      assert Writes(s'.fibers[j], o);
    }
  }

  /** The rows that a fiber starts to apply are beyond what has entered. */
  lemma LockFiber(m: Mode, base: VClock, s: State, s': State, i: nat)
    requires Inv(m, base, s) && Lock(m, s, s', i)
    ensures FiberOK(m, base, s', i)
  {
    var tx := s.fibers[i].phase.tx;
    assert FiberOK(m, base, s, i);
    FreeLatch(m, base, s, tx[0].origin);
    UnappliedIsTx(tx, s.applied);
  }

  lemma LockKeeps(m: Mode, base: VClock, s: State, s': State, i: nat)
    requires Inv(m, base, s) && Lock(m, s, s', i)
    ensures Inv(m, base, s')
  {
    forall o: nat ensures OriginOK(m, base, s', o) {
      assert OriginOK(m, base, s, o);
      WriterStays(s, s', i, o);
    }
    LockFiber(m, base, s, s', i);
    forall j: nat | j < |s'.fibers| ensures FiberOK(m, base, s', j) { assert FiberOK(m, base, s, j); }
    forall k: nat | k < |s'.journal| ensures EntryOK(s', k) { assert EntryOK(s, k); }
  }

  lemma AbortKeeps(m: Mode, base: VClock, s: State, s': State, i: nat)
    requires Inv(m, base, s) && Abort(m, s, s', i)
    ensures Inv(m, base, s')
  {
    assert FiberOK(m, base, s, i);
    forall o: nat ensures OriginOK(m, base, s', o) {
      assert OriginOK(m, base, s, o);
      WriterStays(s, s', i, o);
    }
    forall j: nat | j < |s'.fibers| ensures FiberOK(m, base, s', j) { assert FiberOK(m, base, s, j); }
    forall k: nat | k < |s'.journal| ensures EntryOK(s', k) { assert EntryOK(s, k); }
  }

  /** Other fibers do not notice rows of an origin whose latch they do not hold. */
  lemma OthersStay(m: Mode, base: VClock, s: State, s': State, i: nat, o: nat, j: nat)
    requires FiberOK(m, base, s, j) && j != i && |s'.fibers| == |s.fibers| && s'.fibers[j] == s.fibers[j] && Holds(m, s, i, o)
    requires forall k | k in s.latch && k != m.key(o) :: k in s'.latch && s'.latch[k] == s.latch[k]
    requires forall p | m.key(p) != m.key(o) :: Top(base, s', p) == Top(base, s, p) && Get(s'.applied, p) == Get(s.applied, p)
    requires s'.committed == s.committed
    ensures FiberOK(m, base, s', j)
  {
  }

  lemma SubmitOrigin(m: Mode, base: VClock, s: State, s': State, i: nat, o: nat)
    requires Inv(m, base, s) && Submit(m, s, s', i)
    ensures OriginOK(m, base, s', o)
    ensures o != s.fibers[i].phase.rows[0].origin ==> Top(base, s', o) == Top(base, s, o)
  {
    var rows := s.fibers[i].phase.rows;
    assert FiberOK(m, base, s, i) && OriginOK(m, base, s, o);
    EnteredAppend(s, s', Entry(rows, None), o);
    if o == rows[0].origin {
      RisingAppend(Get(base, o), Of(Entered(s), o), rows);
    }
    WriterStays(s, s', i, o);
  }

  lemma SubmitKeeps(m: Mode, base: VClock, s: State, s': State, i: nat)
    requires Inv(m, base, s) && Submit(m, s, s', i)
    ensures Inv(m, base, s')
  {
    var o := s.fibers[i].phase.rows[0].origin;
    assert FiberOK(m, base, s, i);
    forall p: nat ensures OriginOK(m, base, s', p) && (p != o ==> Top(base, s', p) == Top(base, s, p)) { SubmitOrigin(m, base, s, s', i, p); }
    forall j: nat | j < |s'.fibers| ensures FiberOK(m, base, s', j) {
      assert FiberOK(m, base, s, j);
      if j != i { OthersStay(m, base, s, s', i, o, j); }
    }
    forall k: nat | k < |s'.journal| ensures EntryOK(s', k) { if k < |s.journal| { assert EntryOK(s, k); } }
  }

  lemma SynchroRises(m: Mode, base: VClock, s: State, s': State, i: nat)
    requires i < |s.fibers| && FiberOK(m, base, s, i) && SubmitSynchro(m, s, s', i) && OriginOK(m, base, s, s.fibers[i].phase.rows[0].origin)
    ensures var row := s.fibers[i].phase.rows[0]; OriginOK(m, base, s', row.origin) && Top(base, s', row.origin) == row.lsn
  {
    var rows := s.fibers[i].phase.rows;
    var o := rows[0].origin;
    assert rows == [rows[0]];
    EnteredAppend(s, s', Entry(rows, Some(i)), o);
    RisingAppend(Get(base, o), Of(Entered(s), o), rows);
    assert Writes(s'.fibers[i], o);
  }

  lemma SynchroElsewhere(m: Mode, base: VClock, s: State, s': State, i: nat, o: nat)
    requires i < |s.fibers| && FiberOK(m, base, s, i) && SubmitSynchro(m, s, s', i) && OriginOK(m, base, s, o) && o != s.fibers[i].phase.rows[0].origin
    ensures OriginOK(m, base, s', o) && Top(base, s', o) == Top(base, s, o)
  {
    WriterStays(s, s', i, o);
    ElsewhereStays(m, base, s, s', Entry([s.fibers[i].phase.rows[0]], Some(i)), o);
  }

  /** Rows of another origin enter. */
  lemma ElsewhereStays(m: Mode, base: VClock, s: State, s': State, e: Entry, o: nat)
    requires OriginOK(m, base, s, o) && IsTx(e.rows) && e.rows[0].origin != o && (HasWriter(s, o) ==> HasWriter(s', o))
    requires s'.wal == s.wal && s'.journal == s.journal + [e] && s'.committed == s.committed && s'.applied == s.applied
    ensures OriginOK(m, base, s', o) && Top(base, s', o) == Top(base, s, o)
  {
    EnteredAppend(s, s', e, o);
    assert Of(Entered(s'), o) == Of(Entered(s), o);
    SameOriginOK(m, base, s, s', o);
  }

  lemma SameOriginOK(m: Mode, base: VClock, s: State, s': State, o: nat)
    requires OriginOK(m, base, s, o) && Of(Entered(s'), o) == Of(Entered(s), o) && (HasWriter(s, o) ==> HasWriter(s', o))
    requires s'.wal == s.wal && s'.committed == s.committed && s'.applied == s.applied
    ensures OriginOK(m, base, s', o) && Top(base, s', o) == Top(base, s, o)
  {
  }

  lemma SubmitSynchroOrigin(m: Mode, base: VClock, s: State, s': State, i: nat, o: nat)
    requires Inv(m, base, s) && SubmitSynchro(m, s, s', i)
    ensures OriginOK(m, base, s', o)
    ensures Top(base, s', o) == if o == s.fibers[i].phase.rows[0].origin then s.fibers[i].phase.rows[0].lsn else Top(base, s, o)
  {
    assert FiberOK(m, base, s, i) && OriginOK(m, base, s, o);
    if o == s.fibers[i].phase.rows[0].origin { SynchroRises(m, base, s, s', i); } else { SynchroElsewhere(m, base, s, s', i, o); }
  }

  lemma SubmitSynchroKeeps(m: Mode, base: VClock, s: State, s': State, i: nat)
    requires Inv(m, base, s) && SubmitSynchro(m, s, s', i)
    ensures Inv(m, base, s')
  {
    var row := s.fibers[i].phase.rows[0];
    var o := row.origin;
    assert FiberOK(m, base, s, i);
    forall p: nat ensures OriginOK(m, base, s', p) && Top(base, s', p) == if p == o then row.lsn else Top(base, s, p) {
      SubmitSynchroOrigin(m, base, s, s', i, p);
    }
    forall j: nat | j < |s'.fibers| ensures FiberOK(m, base, s', j) {
      assert FiberOK(m, base, s, j);
      if j != i { OthersStay(m, base, s, s', i, o, j); }
    }
    forall k: nat | k < |s'.journal| ensures EntryOK(s', k) { if k < |s.journal| { assert EntryOK(s, k); } }
    forall j, k | 0 <= j < k < |s'.journal| && s'.journal[j].owner.Some? ensures s'.journal[j].owner != s'.journal[k].owner {
      assert EntryOK(s, j);
    }
  }

  lemma WriteOrigin(m: Mode, base: VClock, s: State, s': State, o: nat)
    requires Inv(m, base, s) && Write(m, s, s')
    ensures OriginOK(m, base, s', o) && Top(base, s', o) == Top(base, s, o)
  {
    var e := s.journal[0];
    assert OriginOK(m, base, s, o) && EntryOK(s, 0);
    EnteredWrite(s, s');
    WalGrows(s.wal, e.rows, o, Get(base, o));
    WriterWakes(s.fibers, e, o);
  }

  lemma WalGrows(wal: seq<Row>, rows: seq<Row>, o: nat, b: nat)
    requires IsTx(rows)
    ensures TopOf(b, Of(wal + rows, o)) == if rows[0].origin == o then Last(rows).lsn else TopOf(b, Of(wal, o))
  {
    OfConcat(wal, rows, o);
    OfTx(rows, o);
  }

  lemma WriterWakes(fibers: seq<Fiber>, e: Entry, o: nat)
    ensures forall j | 0 <= j < |fibers| && Writes(fibers[j], o) :: Writes(WakeOwner(fibers, e)[j], o)
  {
  }

  lemma WriteKeeps(m: Mode, base: VClock, s: State, s': State)
    requires Inv(m, base, s) && Write(m, s, s')
    ensures Inv(m, base, s')
  {
    forall o: nat ensures OriginOK(m, base, s', o) && Top(base, s', o) == Top(base, s, o) { WriteOrigin(m, base, s, s', o); }
    forall j: nat | j < |s'.fibers| ensures FiberOK(m, base, s', j) {
      WriteFiberOK(m, base, s, s', j);
    }
    WriteJournal(m, s, s');
  }

  /** What is committed has entered. */
  lemma CommittedEntered(m: Mode, base: VClock, s: State, o: nat)
    requires OriginOK(m, base, s, o)
    ensures Get(s.committed, o) <= Top(base, s, o)
  {
    OfConcat(s.wal, RowsOf(s.journal), o);
    RisingPrefix(Get(base, o), Of(s.wal, o), Of(Entered(s), o));
  }

  lemma CommittedGrows(m: Mode, base: VClock, s: State, s': State, o: nat)
    requires OriginOK(m, base, s', o) && Get(s.committed, o) == TopOf(Get(base, o), Of(s.wal, o)) && Write(m, s, s')
    ensures Get(s.committed, o) <= Get(s'.committed, o) <= Top(base, s', o)
  {
    CommittedEntered(m, base, s', o);
    OfConcat(s.wal, s.journal[0].rows, o);
    OfConcat(s'.wal, RowsOf(s'.journal), o);
    RisingPrefix(Get(base, o), Of(s'.wal, o), Of(Entered(s'), o));
    RisingPrefix(Get(base, o), Of(s.wal, o), Of(s'.wal, o));
  }

  lemma WriteFiberOK(m: Mode, base: VClock, s: State, s': State, j: nat)
    requires Inv(m, base, s) && Write(m, s, s') && j < |s.fibers| && forall o: nat :: Top(base, s', o) == Top(base, s, o)
    ensures FiberOK(m, base, s', j)
  {
    assert FiberOK(m, base, s, j) && EntryOK(s, 0);
    if s.fibers[j].phase.Written? {
      var o := s.fibers[j].phase.row.origin;
      WriteOrigin(m, base, s, s', o);
      assert OriginOK(m, base, s, o);
      CommittedGrows(m, base, s, s', o);
    }
    WriteFiber(m, base, s, s', j);
  }

  lemma WriteFiber(m: Mode, base: VClock, s: State, s': State, j: nat)
    requires FiberOK(m, base, s, j) && Write(m, s, s') && EntryOK(s, 0) && forall o: nat :: Top(base, s', o) == Top(base, s, o)
    requires s.fibers[j].phase.Written? ==>
               var o := s.fibers[j].phase.row.origin; Get(s.committed, o) <= Get(s'.committed, o) <= Top(base, s', o)
    ensures FiberOK(m, base, s', j)
  {
  }

  lemma WriteJournal(m: Mode, s: State, s': State)
    requires JournalOK(s) && Write(m, s, s')
    ensures JournalOK(s')
  {
    assert EntryOK(s, 0);
    forall k: nat | k < |s'.journal| ensures EntryOK(s', k) {
      assert EntryOK(s, k + 1) && s'.journal[k] == s.journal[k + 1];
    }
  }

  lemma FollowKeeps(m: Mode, base: VClock, s: State, s': State, i: nat)
    requires Inv(m, base, s) && Follow(m, s, s', i)
    ensures Inv(m, base, s')
  {
    var row := s.fibers[i].phase.row;
    assert FiberOK(m, base, s, i);
    assert Entered(s') == Entered(s);
    forall o: nat ensures OriginOK(m, base, s', o) {
      assert OriginOK(m, base, s, o);
      if o != row.origin { WriterStays(s, s', i, o); }
    }
    forall j: nat | j < |s'.fibers| ensures FiberOK(m, base, s', j) {
      assert FiberOK(m, base, s, j);
      if j != i { OthersStay(m, base, s, s', i, row.origin, j); }
    }
    forall k: nat | k < |s'.journal| ensures EntryOK(s', k) { assert EntryOK(s, k); }
  }

  lemma FailOrigin(m: Mode, base: VClock, s: State, s': State, o: nat)
    requires Inv(m, base, s) && Fail(m, s, s')
    ensures OriginOK(m, base, s', o) && Top(base, s', o) == Get(s'.applied, o) <= Top(base, s, o)
  {
    assert OriginOK(m, base, s, o);
    EnteredFail(s, s', o);
    RisingPrefix(Get(base, o), Of(s.wal, o), Of(Entered(s), o));
  }

  lemma FailKeeps(m: Mode, base: VClock, s: State, s': State)
    requires Inv(m, base, s) && Fail(m, s, s')
    ensures Inv(m, base, s')
  {
    forall o: nat ensures OriginOK(m, base, s', o) && Top(base, s', o) == Get(s'.applied, o) <= Top(base, s, o) { FailOrigin(m, base, s, s', o); }
    forall j: nat | j < |s'.fibers| ensures FiberOK(m, base, s', j) { assert FiberOK(m, base, s, j); }
  }

  /** Every step keeps the invariant. */
  lemma StepKeeps(m: Mode, base: VClock, s: State, s': State, a: Action)
    requires Inv(m, base, s) && Next(m, s, s', a)
    ensures Inv(m, base, s')
  {
    match a {
      case DoSubscribe(i) => FiberTurns(m, base, s, s', i, s'.fibers[i]);
      case DoReceive(i, tx) => FiberTurns(m, base, s, s', i, s'.fibers[i]);
      case DoSkip(i) => FiberTurns(m, base, s, s', i, s'.fibers[i]);
      case DoLock(i) => LockKeeps(m, base, s, s', i);
      case DoAbort(i) => AbortKeeps(m, base, s, s', i);
      case DoSubmit(i) => SubmitKeeps(m, base, s, s', i);
      case DoSubmitSynchro(i) => SubmitSynchroKeeps(m, base, s, s', i);
      case DoWrite => WriteKeeps(m, base, s, s');
      case DoFollow(i) => FollowKeeps(m, base, s, s', i);
      case DoFail => FailKeeps(m, base, s, s');
    }
  }

  lemma {:induction false} RunKeeps(m: Mode, run: seq<State>, actions: seq<Action>, k: nat)
    requires IsRun(m, run, actions) && k < |run|
    ensures Inv(m, run[0].committed, run[k])
  {
    if k == 0 {
      assert Entered(run[0]) == [];
    } else {
      RunKeeps(m, run, actions, k - 1);
      assert Next(m, run[k - 1], run[k], actions[k - 1]);
      StepKeeps(m, run[0].committed, run[k - 1], run[k], actions[k - 1]);
    }
  }

  /**
   Exactly once, in order.  In every run, however appliers, successes and failures
   interleave, the rows of an origin that have entered the journal and not failed, written
   ones first, have strictly increasing LSNs, above those recovered; and the committed
   clock says which of them is the last written.
   */
  lemma RowsEnterInOrder(m: Mode, run: seq<State>, actions: seq<Action>, k: nat, o: nat)
    requires IsRun(m, run, actions) && k < |run|
    ensures Rising(Get(run[0].committed, o), Of(Entered(run[k]), o))
    ensures Of(run[k].wal, o) <= Of(Entered(run[k]), o)
    ensures Get(run[k].committed, o) == TopOf(Get(run[0].committed, o), Of(run[k].wal, o))
  {
    RunKeeps(m, run, actions, k);
    assert OriginOK(m, run[0].committed, run[k], o);
    OfConcat(run[k].wal, RowsOf(run[k].journal), o);
  }

  /** The assertion of `vclock_follow`: with a prompt stop every advance of the applier clock is a strict one. */
  lemma FollowAdvances(m: Mode, run: seq<State>, actions: seq<Action>, k: nat, i: nat)
    requires IsRun(m, run, actions) && k < |run| && i < |run[k].fibers|
    ensures run[k].fibers[i].phase.Applying? && run[k].fibers[i].phase.rows != [] ==>
              Get(run[k].applied, run[k].fibers[i].phase.rows[0].origin) < Last(run[k].fibers[i].phase.rows).lsn
    ensures run[k].fibers[i].phase.Written? ==>
              Get(run[k].applied, run[k].fibers[i].phase.row.origin) <= run[k].fibers[i].phase.row.lsn
    ensures run[k].fibers[i].phase.Written? && m.prompt ==>
              Get(run[k].applied, run[k].fibers[i].phase.row.origin) < run[k].fibers[i].phase.row.lsn
  {
    RunKeeps(m, run, actions, k);
    assert FiberOK(m, run[0].committed, run[k], i);
  }
}
