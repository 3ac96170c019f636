/** The step-by-step writer of the pipeline does what the sequential `write_batch` does. */
module SiemRefinement {
  import opened SiemBatching
  import opened SiemWriter
  import opened SiemRuns

  /** How the writer's next call turns out. */
  function NextResult(o: Outcome, batch: Batch, w: Writer): Result {
    match w
    case Starting => if o.insertOk then Good else Bad
    case Inserting(k) =>
      if k < |batch| then (if o.rowOk(k) then Good else Bad)
      else (match o.commit case Committed => Good case NotApplied => Bad case AppliedUnconfirmed => Unconfirmed)
    case Dumping(k, _) =>
      if !o.walOpens then Bad
      else if k < |batch| then (if o.lineOk(k) then Good else Bad)
      else if o.flushOk then Good else Bad
    case Finished(_, _, _) => Good
  }

  function Left(batch: Batch, w: Writer): nat
    requires WriterOk(batch, w)
  {
    match w
    case Starting => 2 * |batch| + 4
    case Inserting(k) => 2 * |batch| + 3 - k
    case Dumping(k, _) => |batch| + 1 - k
    case Finished(_, _, _) => 0
  }

  /** The state a writer finishes in when its calls turn out as `o` says. */
  function Final(o: Outcome, batch: Batch, w: Writer): (r: Writer)
    requires WriterOk(batch, w)
    ensures r.Finished? && WriterOk(batch, r)
    decreases Left(batch, w)
  {
    if w.Finished? then w else Final(o, batch, WriterNext(batch, w, NextResult(o, batch, w)))
  }

  /** A dump from line `k` on. */
  lemma {:induction false} FinalOfDump(o: Outcome, batch: Batch, k: nat, applied: bool)
    requires k <= |batch| && forall i :: 0 <= i < k ==> o.lineOk(i)
    requires !o.walOpens ==> k == 0
    ensures Final(o, batch, Dumping(k, applied))
            == Finished(if o.walOpens then LinesWritten(o, |batch|, k) else 0, applied, !LogOk(o, batch))
    decreases |batch| - k
  {
    if o.walOpens && k < |batch| && o.lineOk(k) { FinalOfDump(o, batch, k + 1, applied); }
  }

  lemma {:induction false} FinalOfInsert(o: Outcome, batch: Batch, k: nat)
    requires batch != [] && o.insertOk && k <= |batch| && forall i :: 0 <= i < k ==> o.rowOk(i)
    ensures Final(o, batch, Inserting(k)) ==
              if NeedsLog(o, batch) then Finished(LogLines(o, batch), Applies(o, batch), !LogOk(o, batch))
              else Finished(0, true, false)
    decreases |batch| - k
  {
    if k < |batch| && o.rowOk(k) {
      FinalOfInsert(o, batch, k + 1);
    } else {
      FinalOfDump(o, batch, 0, k == |batch| && o.commit.AppliedUnconfirmed?);
    }
  }

  /** A spawned writer, run alone to its end, adds to the table and to the log exactly what
      the sequential method does, and fails exactly when it does. */
  lemma WriterRefines(o: Outcome, batch: Batch)
    requires batch != []
    ensures var w := Final(o, batch, Starting);
            && (Applied(w) <==> Applies(o, batch))
            && Lines(w) == (if NeedsLog(o, batch) then LogLines(o, batch) else 0)
            && (w.walFailed <==> NeedsLog(o, batch) && !LogOk(o, batch))
  {
    if o.insertOk {
      FinalOfInsert(o, batch, 0);
    } else {
      FinalOfDump(o, batch, 0, false);
    }
  }
}
