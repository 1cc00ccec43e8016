/**
 Transactions in the stream of an applier: cutting the stream into transactions, skipping
 the rows that have been applied already, and replacing the rows of an outdated origin
 with NOPs.
 */
module ApplierTx {
  import opened Options
  import opened VClocks

  const VCLOCK_MAX: nat := 32

  datatype Kind = DML | NOP | CONFIRM | ROLLBACK | PROMOTE | DEMOTE | ERROR

  datatype Row = Row(kind: Kind, replicaId: nat, lsn: nat, tsn: nat, isCommit: bool, waitSync: bool, bodycnt: nat)

  predicate IsSynchro(k: Kind)
  {
    k.CONFIRM? || k.ROLLBACK? || k.PROMOTE? || k.DEMOTE?
  }

  predicate IsPromote(k: Kind)
  {
    k.PROMOTE? || k.DEMOTE?
  }

  // ---------------------------------------------------------------------------
  // Framing
  // ---------------------------------------------------------------------------

  datatype TxError = RemoteError | UnknownReplica | Protocol | Interleaving

  /** A row that may stand in a transaction. */
  predicate RowOK(row: Row)
  {
    !row.kind.ERROR? && row.replicaId < VCLOCK_MAX
  }

  /** A transaction of the stream, or a heartbeat: its id is the LSN of its first row, and only its last row ends it. */
  ghost predicate IsTx(rows: seq<Row>)
  {
    Open(rows) && Ends(rows[|rows| - 1])
  }

  predicate Ends(row: Row)
  {
    row.isCommit || row.tsn == 0
  }

  /** Rows that belong to one transaction, of which all but the last do not end it. */
  ghost predicate Open(rows: seq<Row>)
  {
    && rows != [] && rows[0].lsn == rows[0].tsn
    && (forall i | 0 <= i < |rows| :: RowOK(rows[i]) && rows[i].tsn == rows[0].tsn)
    && (forall i | 0 <= i < |rows| - 1 :: !Ends(rows[i]))
  }

  /** What is wrong with `row` after `rows`, in the order in which it is looked at. */
  ghost predicate Faulty(rows: seq<Row>, row: Row, e: TxError)
  {
    match e
    case RemoteError => row.kind.ERROR?
    case UnknownReplica => !row.kind.ERROR? && row.replicaId >= VCLOCK_MAX
    case Protocol => RowOK(row) && rows == [] && row.lsn != row.tsn
    case Interleaving => RowOK(row) && rows != [] && row.tsn != rows[0].tsn
  }

  /** Rows read so far, while the transaction goes on. */
  ghost predicate Reading(rows: seq<Row>, tsn: int)
  {
    if rows == [] then tsn == 0 else tsn == rows[0].tsn != 0 && Open(rows) && !Ends(rows[|rows| - 1])
  }

  /** Add a row to the transaction; the new `tsn` is 0 at its end. */
  method SetNextTxRow(rows: seq<Row>, row: Row, tsn: int) returns (rows': seq<Row>, tsn': int, err: Option<TxError>)
    requires Reading(rows, tsn)
    ensures err.Some? ==> Faulty(rows, row, err.value) && rows' == rows
    ensures err.None? ==> rows' == rows + [row] && Open(rows') && (tsn' == 0 <==> IsTx(rows')) && (tsn' != 0 ==> Reading(rows', tsn'))
  {
    rows', tsn', err := rows, tsn, None;
    if row.kind.ERROR? {
      err := Some(RemoteError);
      return;
    }
    if row.replicaId >= VCLOCK_MAX {
      err := Some(UnknownReplica);
      return;
    }
    if tsn == 0 {
      tsn' := row.tsn;
      if row.lsn != tsn' {
        err := Some(Protocol);
        return;
      }
    } else if tsn != row.tsn {
      err := Some(Interleaving);
      return;
    }
    if row.isCommit { tsn' := 0; }
    rows' := rows + [row];
  }

  datatype Read = Tx(rows: seq<Row>) | Blocked | Failed(err: TxError)

  /** A transaction has begun, or none has. */
  ghost predicate Pending(rows: seq<Row>)
  {
    rows != [] ==> Open(rows) && !Ends(rows[|rows| - 1])
  }

  /**
   What a reader makes of a stream: the one prefix that is a transaction; without one,
   it fails at the first row that does not fit, or waits for more.
   */
  ghost predicate ReadOK(stream: seq<Row>, r: Read, n: nat)
  {
    n <= |stream| &&
    match r
    case Tx(rows) => IsTx(rows) && rows == stream[..n]
    case Failed(e) => n < |stream| && Pending(stream[..n]) && Faulty(stream[..n], stream[n], e)
    case Blocked => n == |stream| && forall k | 0 <= k <= n :: !IsTx(stream[..k])
  }

  /** Read one transaction. */
  method ReadTx(stream: seq<Row>) returns (r: Read, n: nat)
    ensures ReadOK(stream, r, n)
  {
    var tsn, rows := 0, [];
    n := 0;
    while true
      invariant n <= |stream| && rows == stream[..n] && Reading(rows, tsn)
      decreases |stream| - n
    {
      if n == |stream| {
        forall k | 0 <= k <= n ensures !IsTx(stream[..k]) {
          assert rows[..k] == stream[..k];
          OpenHasNoTx(rows, k);
        }
        return Blocked, n;
      }
      var err;
      rows, tsn, err := SetNextTxRow(rows, stream[n], tsn);
      if err.Some? { return Failed(err.value), n; }
      n := n + 1;
      if tsn == 0 { return Tx(rows), n; }
    }
  }

  lemma OpenHasNoTx(rows: seq<Row>, k: nat)
    requires k <= |rows| && (rows != [] ==> Open(rows) && !Ends(rows[|rows| - 1]))
    ensures !IsTx(rows[..k])
  {
    if k > 0 { assert rows[..k][k - 1] == rows[k - 1]; }
  }

  /** No transaction is a proper prefix of another. */
  lemma TxIsUnique(stream: seq<Row>, i: nat, j: nat)
    requires i <= |stream| && j <= |stream| && IsTx(stream[..i]) && IsTx(stream[..j])
    ensures i == j
  {
    OnlyLastEnds(stream, i);
    OnlyLastEnds(stream, j);
  }

  lemma OnlyLastEnds(stream: seq<Row>, n: nat)
    requires n <= |stream| && IsTx(stream[..n])
    ensures n > 0 && Ends(stream[n - 1]) && forall k | 0 <= k < n - 1 :: !Ends(stream[k])
  {
    forall k | 0 <= k < n ensures stream[..n][k] == stream[k] { }
  }

  ghost function Concat(txs: seq<seq<Row>>): seq<Row>
  {
    if txs == [] then [] else txs[0] + Concat(txs[1..])
  }

  lemma {:induction false} ConcatLast(txs: seq<seq<Row>>, tx: seq<Row>)
    ensures Concat(txs + [tx]) == Concat(txs) + tx
  {
    if txs == [] {
      assert (txs + [tx])[1..] == [];
    } else {
      assert (txs + [tx])[1..] == txs[1..] + [tx];
      ConcatLast(txs[1..], tx);
    }
  }

  /** A stream has one reading only. */
  lemma {:induction false} ReadingIsUnique(a: seq<seq<Row>>, b: seq<seq<Row>>)
    requires AllTx(a) && AllTx(b) && Concat(a) == Concat(b)
    ensures a == b
    decreases |a|
  {
    NonEmpty(a);
    NonEmpty(b);
    if a != [] && b != [] {
      var s := Concat(a);
      assert s[..|a[0]|] == a[0] && s[..|b[0]|] == b[0];
      TxIsUnique(s, |a[0]|, |b[0]|);
      assert s[|a[0]|..] == Concat(a[1..]) && s[|b[0]|..] == Concat(b[1..]);
      ReadingIsUnique(a[1..], b[1..]);
      assert a == [a[0]] + a[1..] && b == [b[0]] + b[1..];
    }
  }

  lemma NonEmpty(txs: seq<seq<Row>>)
    requires AllTx(txs)
    ensures txs != [] ==> Concat(txs) != [] && IsTx(txs[0])
  {
    if txs != [] { assert txs[0] in txs; }
  }

  /** One more transaction has been read. */
  lemma ReadOn(stream: seq<Row>, read: seq<seq<Row>>, pos: nat, r: Read, n: nat)
    requires pos <= |stream| && Concat(read) == stream[..pos] && AllTx(read) && ReadOK(stream[pos..], r, n) && r.Tx?
    ensures 0 < n && pos + n <= |stream| && Concat(read + [r.rows]) == stream[..pos + n] && AllTx(read + [r.rows])
  {
    ConcatLast(read, r.rows);
    assert stream[..pos + n] == stream[..pos] + stream[pos..][..n];
  }

  /** Read transactions until the stream gives no more. */
  method ReadAll(stream: seq<Row>, ghost txs: seq<seq<Row>>) returns (read: seq<seq<Row>>, last: Read)
    ensures !last.Tx? && AllTx(read) && Concat(read) <= stream
    ensures AllTx(txs) && stream == Concat(txs) ==> read == txs && last == Blocked
  {
    read := [];
    var pos := 0;
    while true
      invariant pos <= |stream| && Concat(read) == stream[..pos] && AllTx(read)
      invariant AllTx(txs) && stream == Concat(txs) ==> read <= txs
      decreases |stream| - pos
    {
      var r, n := ReadTx(stream[pos..]);
      if AllTx(txs) && stream == Concat(txs) { NextTx(stream, txs, read, pos, r, n); }
      if !r.Tx? { return read, r; }
      ReadOn(stream, read, pos, r, n);
      read, pos := read + [r.rows], pos + n;
    }
  }

  ghost predicate AllTx(txs: seq<seq<Row>>)
  {
    forall t | t in txs :: IsTx(t)
  }

  lemma {:induction false} ConcatSplit(txs: seq<seq<Row>>, k: nat)
    requires k <= |txs|
    ensures Concat(txs) == Concat(txs[..k]) + Concat(txs[k..])
  {
    if k == 0 {
      assert txs[..0] == [] && txs[0..] == txs;
    } else {
      ConcatSplit(txs[1..], k - 1);
      assert txs[1..][..k - 1] == txs[..k][1..] && txs[1..][k - 1..] == txs[k..];
    }
  }

  /** On a stream of whole transactions the next read gives the next one. */
  lemma NextTx(stream: seq<Row>, txs: seq<seq<Row>>, read: seq<seq<Row>>, pos: nat, r: Read, n: nat)
    requires AllTx(txs) && stream == Concat(txs) && read <= txs && pos <= |stream| && Concat(read) == stream[..pos] && ReadOK(stream[pos..], r, n)
    ensures r.Tx? ==> |read| < |txs| && r.rows == txs[|read|]
    ensures !r.Tx? ==> r == Blocked && read == txs
  {
    var rest := txs[|read|..];
    RestOfStream(stream, txs, read, pos);
    if rest != [] {
      assert rest[0] in txs;
      FirstOfRest(rest);
      ReadsTx(stream[pos..], |rest[0]|, r, n);
    }
  }

  lemma RestOfStream(stream: seq<Row>, txs: seq<seq<Row>>, read: seq<seq<Row>>, pos: nat)
    requires stream == Concat(txs) && read <= txs && pos <= |stream| && Concat(read) == stream[..pos]
    ensures stream[pos..] == Concat(txs[|read|..])
  {
    ConcatSplit(txs, |read|);
    assert txs[..|read|] == read;
  }

  lemma FirstOfRest(rest: seq<seq<Row>>)
    requires rest != []
    ensures |rest[0]| <= |Concat(rest)| && Concat(rest)[..|rest[0]|] == rest[0]
  {
  }

  /** A stream that begins with a transaction gives that transaction. */
  lemma ReadsTx(stream: seq<Row>, m: nat, r: Read, n: nat)
    requires m <= |stream| && IsTx(stream[..m]) && ReadOK(stream, r, n)
    ensures r == Tx(stream[..m])
  {
    match r {
      case Tx(rows) => TxIsUnique(stream, m, n);
      case Blocked =>
      case Failed(e) => FaultIsNotInTx(stream, m, n, e);
    }
  }

  lemma FaultIsNotInTx(stream: seq<Row>, m: nat, k: nat, e: TxError)
    requires m <= |stream| && k < |stream| && IsTx(stream[..m]) && Pending(stream[..k])
    ensures !Faulty(stream[..k], stream[k], e)
  {
    OnlyLastEnds(stream, m);
    forall i | 0 <= i < k ensures !Ends(stream[i]) { assert stream[..k][i] == stream[i]; }
    assert stream[..m][k] == stream[k] && stream[..m][0] == stream[0];
  }

  // ---------------------------------------------------------------------------
  // What is applied
  // ---------------------------------------------------------------------------

  predicate Applied(v: VClock, row: Row)
  {
    row.lsn <= Get(v, row.replicaId)
  }

  /** Drop the rows that have been applied, from the front; there is one that has not, so the queue does not run empty. */
  method SkipApplied(rows: seq<Row>, vclock: VClock) returns (rest: seq<Row>)
    requires rows != [] && !Applied(vclock, rows[|rows| - 1])
    ensures rest != [] && !Applied(vclock, rest[0]) && |rest| <= |rows| && rest == rows[|rows| - |rest|..]
    ensures forall i | 0 <= i < |rows| - |rest| :: Applied(vclock, rows[i])
  {
    rest := rows;
    while true
      invariant 0 < |rest| <= |rows| && rest == rows[|rows| - |rest|..]
      invariant forall i | 0 <= i < |rows| - |rest| :: Applied(vclock, rows[i])
      decreases |rest|
    {
      if Applied(vclock, rest[0]) {
        assert rest[|rest| - 1] == rows[|rows| - 1];
        rest := rest[1..];
      } else {
        return;
      }
    }
  }

  /** The rows of a transaction come from one origin, in order. */
  ghost predicate Ordered(rows: seq<Row>)
  {
    && (forall i | 0 <= i < |rows| :: rows[i].replicaId == rows[0].replicaId)
    && (forall i, j | 0 <= i < j < |rows| :: rows[i].lsn < rows[j].lsn)
  }

  /** Of ordered rows, exactly those not yet applied are left. */
  lemma SkipsExactly(rows: seq<Row>, vclock: VClock, n: nat, i: nat)
    requires Ordered(rows) && n < |rows| && !Applied(vclock, rows[n]) && (forall k | 0 <= k < n :: Applied(vclock, rows[k])) && i < |rows|
    ensures Applied(vclock, rows[i]) <==> i < n
  {
  }

  predicate Nopify(rows: seq<Row>, raftEnabled: bool, outdated: set<nat>)
    requires rows != []
  {
    && raftEnabled && rows[0].replicaId in outdated
    && (rows[|rows| - 1].waitSync || (IsSynchro(rows[0].kind) && !IsPromote(rows[0].kind)))
  }

  /** `b` is `a` with every row kept in place, its body and type aside. */
  ghost predicate SameRows(a: seq<Row>, b: seq<Row>)
  {
    |a| == |b| && forall i | 0 <= i < |a| :: b[i].(kind := a[i].kind, bodycnt := a[i].bodycnt) == a[i]
  }

  /** `out` is what the filter makes of the rows: NOPs for all of them, or the rows themselves. */
  ghost predicate Filtered(rows: seq<Row>, raftEnabled: bool, outdated: set<nat>, out: seq<Row>)
    requires rows != []
  {
    && SameRows(rows, out)
    && if Nopify(rows, raftEnabled, outdated) then forall i | 0 <= i < |out| :: out[i].kind == NOP && out[i].bodycnt == 0 else out == rows
  }

  /** `applier_synchro_filter_tx`: rows from an origin that is behind the leader become NOPs, all of them or none. */
  method SynchroFilter(rows: seq<Row>, raftEnabled: bool, outdated: set<nat>) returns (out: seq<Row>)
    requires rows != []
    ensures Filtered(rows, raftEnabled, outdated, out)
    ensures !raftEnabled || rows[0].replicaId !in outdated ==> out == rows
    ensures raftEnabled && rows[0].replicaId in outdated && rows[|rows| - 1].waitSync ==> forall i | 0 <= i < |out| :: out[i].kind == NOP
    ensures raftEnabled && rows[0].replicaId in outdated && rows[0].kind in {CONFIRM, ROLLBACK} ==> forall i | 0 <= i < |out| :: out[i].kind == NOP
    ensures !rows[|rows| - 1].waitSync && rows[0].kind !in {CONFIRM, ROLLBACK} ==> out == rows
  {
    out := rows;
    if !raftEnabled { return; }
    if rows[0].replicaId !in outdated { return; }
    if !rows[|rows| - 1].waitSync {
      if !IsSynchro(rows[0].kind) { return; }
      if IsPromote(rows[0].kind) { return; }
    }
    var i := 0;
    while i < |out|
      invariant 0 <= i <= |out| && SameRows(rows, out)
      invariant forall k | 0 <= k < i :: out[k].kind == NOP && out[k].bodycnt == 0
    {
      out := out[i := out[i].(kind := NOP, bodycnt := 0)];
      i := i + 1;
    }
  }

  /** The vector clock after the rows. */
  function FollowAll(v: VClock, rows: seq<Row>): VClock
    decreases rows
  {
    if rows == [] then v else FollowAll(v[rows[0].replicaId := rows[0].lsn], rows[1..])
  }

  /** The clock moves as if the filtered rows had been applied. */
  lemma {:induction false} FilterKeepsClock(v: VClock, a: seq<Row>, b: seq<Row>)
    requires SameRows(a, b)
    ensures FollowAll(v, a) == FollowAll(v, b)
    decreases a
  {
    if a != [] {
      assert b[0].(kind := a[0].kind, bodycnt := a[0].bodycnt) == a[0];
      forall i | 0 <= i < |a| - 1 ensures b[1..][i].(kind := a[1..][i].kind, bodycnt := a[1..][i].bodycnt) == a[1..][i] {
        assert a[1..][i] == a[i + 1] && b[1..][i] == b[i + 1];
      }
      FilterKeepsClock(v[a[0].replicaId := a[0].lsn], a[1..], b[1..]);
    }
  }

  datatype Work = Nothing | Synchro(row: Row) | Plain(rows: seq<Row>)

  /**
   The first half of `applier_apply_tx`: decide what is left to do of a transaction.
   Nothing, if its last row has been applied; else its rows that have not been applied,
   possibly as NOPs.
   */
  method Decide(rows: seq<Row>, vclock: VClock, raftEnabled: bool, outdated: set<nat>) returns (w: Work)
    requires rows != [] && (IsSynchro(rows[0].kind) ==> |rows| == 1)
    ensures w.Nothing? <==> Applied(vclock, rows[|rows| - 1])
    ensures w.Synchro? <==> !Applied(vclock, rows[|rows| - 1]) && IsSynchro(rows[0].kind) && !Nopify(rows, raftEnabled, outdated)
    ensures w.Synchro? ==> rows == [w.row] && w.row.kind in {CONFIRM, ROLLBACK, PROMOTE, DEMOTE}
    ensures w.Plain? ==> 0 < |w.rows| <= |rows| && Filtered(rows[|rows| - |w.rows|..], raftEnabled, outdated, w.rows)
    ensures w.Plain? ==> !Applied(vclock, w.rows[0]) && forall i | 0 <= i < |rows| - |w.rows| :: Applied(vclock, rows[i])
  {
    if Applied(vclock, rows[|rows| - 1]) { return Nothing; }
    var rest := rows;
    if Applied(vclock, rows[0]) { rest := SkipApplied(rows, vclock); }
    assert rest == rows[|rows| - |rest|..];
    var out := SynchroFilter(rest, raftEnabled, outdated);
    assert out[0].(kind := rest[0].kind, bodycnt := rest[0].bodycnt) == rest[0];
    var first := if |rest| == |rows| then out[0] else rows[0];
    if IsSynchro(first.kind) {
      return Synchro(out[0]);
    }
    return Plain(out);
  }
}
