/** Writing one batch: the insert, the commit, and the fall back to the write-ahead log. */
module SiemWriter {
  import opened SiemBatching

  /** A commit can fail on the client although the server applied it. */
  datatype Commit = Committed | NotApplied | AppliedUnconfirmed

  /** How every fallible call of one `write_batch` turns out; rows and lines are numbered. */
  datatype Outcome = Outcome(insertOk: bool, rowOk: nat -> bool, commit: Commit,
                             walOpens: bool, lineOk: nat -> bool, flushOk: bool)

  ghost predicate RowsAccepted(o: Outcome, batch: Batch) {
    o.insertOk && forall i :: 0 <= i < |batch| ==> o.rowOk(i)
  }

  /** How many lines the dump appends before its first failing write. */
  function LinesWritten(o: Outcome, n: nat, from: nat): (r: nat)
    requires from <= n
    ensures from <= r <= n && (r < n ==> !o.lineOk(r)) && forall i :: from <= i < r ==> o.lineOk(i)
    decreases n - from
  {
    if from == n || !o.lineOk(from) then from else LinesWritten(o, n, from + 1)
  }

  /** The batch ends up in the table. */
  ghost predicate Applies(o: Outcome, batch: Batch) { RowsAccepted(o, batch) && !o.commit.NotApplied? }

  /** The writer turns to the log. */
  ghost predicate NeedsLog(o: Outcome, batch: Batch) {
    batch != [] && !(RowsAccepted(o, batch) && o.commit.Committed?)
  }

  function LogLines(o: Outcome, batch: Batch): (n: nat)
    ensures n <= |batch|
  {
    if o.walOpens then LinesWritten(o, |batch|, 0) else 0
  }

  ghost predicate LogOk(o: Outcome, batch: Batch) {
    o.walOpens && o.flushOk && forall i :: 0 <= i < |batch| ==> o.lineOk(i)
  }

  class Storage {
    var table: Batch
    var wal: Batch

    constructor ()
      ensures table == [] && wal == []
    {
      table, wal := [], [];
    }

    /** A dump appends a prefix of the batch, all of it exactly when no write failed. */
    method DumpToWal(batch: Batch, o: Outcome) returns (ok: bool)
      modifies this`wal
      ensures ok <==> LogOk(o, batch)
      ensures wal == old(wal) + batch[..LogLines(o, batch)]
    {
      if !o.walOpens { return false; }
      var i := 0;
      while i < |batch|
        invariant i <= |batch| && wal == old(wal) + batch[..i]
        invariant LinesWritten(o, |batch|, i) == LinesWritten(o, |batch|, 0)
        invariant forall j :: 0 <= j < i ==> o.lineOk(j)
      {
        if !o.lineOk(i) { return false; }
        wal := wal + [batch[i]];
        i := i + 1;
      }
      return o.flushOk;
    }

    /** Whatever happens, either the batch reached the table, or all of it reached the log,
        or the log itself failed. */
    method WriteBatch(batch: Batch, o: Outcome) returns (walFailed: bool)
      modifies this
      ensures batch == [] ==> table == old(table) && wal == old(wal) && !walFailed
      ensures table == old(table) + if Applies(o, batch) then batch else []
      ensures wal == old(wal) + if NeedsLog(o, batch) then batch[..LogLines(o, batch)] else []
      ensures walFailed <==> NeedsLog(o, batch) && !LogOk(o, batch)
      ensures !walFailed ==> table == old(table) + batch || wal == old(wal) + batch
    {
      if batch == [] { return false; }
      if !o.insertOk {
        var ok := DumpToWal(batch, o);
        return !ok;
      }
      var failed, i := false, 0;
      while i < |batch| && !failed
        invariant i <= |batch| && (forall j :: 0 <= j < i ==> o.rowOk(j))
        invariant failed ==> i < |batch| && !o.rowOk(i)
        decreases |batch| - i, !failed
      {
        if o.rowOk(i) { i := i + 1; } else { failed := true; }
      }
      if !failed {
        if !o.commit.NotApplied? { table := table + batch; }
        failed := !o.commit.Committed?;
      }
      if !failed { return false; }
      var ok := DumpToWal(batch, o);
      return !ok;
    }
  }
}
