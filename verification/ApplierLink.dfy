/**
 The transactions that the stream is cut into and the step relation of the appliers fit
 together: what is left to do of a transaction is what a fiber starts to apply.
 */
module ApplierLink {
  import opened VClocks
  import Tx = ApplierTx
  import Steps = Applier

  /** Of a row, the step relation knows the origin and the LSN. */
  function Abs(row: Tx.Row): Steps.Row
  {
    Steps.Row(row.replicaId, row.lsn)
  }

  function AbsAll(rows: seq<Tx.Row>): seq<Steps.Row>
  {
    seq(|rows|, i requires 0 <= i < |rows| => Abs(rows[i]))
  }

  /** Dropping applied rows from the front, one by one, leaves what has not been applied. */
  lemma {:induction false} SkippedIsUnapplied(rows: seq<Tx.Row>, v: VClock, n: nat)
    requires n < |rows| && !Tx.Applied(v, rows[n]) && forall i | 0 <= i < n :: Tx.Applied(v, rows[i])
    ensures Steps.Unapplied(AbsAll(rows), v) == AbsAll(rows[n..])
    decreases n
  {
    if n == 0 {
      assert rows[0..] == rows;
    } else {
      assert Tx.Applied(v, rows[0]) && AbsAll(rows)[1..] == AbsAll(rows[1..]);
      SkippedIsUnapplied(rows[1..], v, n - 1);
      assert rows[1..][n - 1..] == rows[n..];
    }
  }

  /** A filter that replaces rows by NOPs does not change what the step relation knows of them. */
  lemma FilteredIsSame(a: seq<Tx.Row>, b: seq<Tx.Row>)
    requires Tx.SameRows(a, b)
    ensures AbsAll(a) == AbsAll(b)
  {
    forall i | 0 <= i < |a| ensures Abs(a[i]) == Abs(b[i]) {
      assert b[i].(kind := a[i].kind, bodycnt := a[i].bodycnt) == a[i];
    }
  }

  /** What `applier_apply_tx` decides is what the steps do: skip the transaction, or apply the rest of it. */
  method Decide(rows: seq<Tx.Row>, vclock: VClock, raftEnabled: bool, outdated: set<nat>) returns (w: Tx.Work)
    requires rows != [] && Tx.Ordered(rows) && (Tx.IsSynchro(rows[0].kind) ==> |rows| == 1)
    ensures w.Nothing? <==> Get(vclock, AbsAll(rows)[0].origin) >= Steps.Last(AbsAll(rows)).lsn
    ensures w.Plain? ==> AbsAll(w.rows) == Steps.Unapplied(AbsAll(rows), vclock)
    ensures w.Synchro? ==> [Abs(w.row)] == Steps.Unapplied(AbsAll(rows), vclock)
  {
    w := Tx.Decide(rows, vclock, raftEnabled, outdated);
    if w.Plain? {
      ghost var n := |rows| - |w.rows|;
      FilteredIsSame(rows[n..], w.rows);
      assert w.rows[0].(kind := rows[n..][0].kind, bodycnt := rows[n..][0].bodycnt) == rows[n];
      SkippedIsUnapplied(rows, vclock, n);
    } else if w.Synchro? {
      SkippedIsUnapplied(rows, vclock, 0);
      assert AbsAll(rows[0..]) == [Abs(w.row)];
    }
  }
}
