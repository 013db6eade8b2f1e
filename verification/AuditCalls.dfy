/** When exactly a call of the audit trail succeeds, whatever fails, and everything it leaves behind. */
module AuditCalls {
  import opened Options
  import opened BridgeProtocol
  import opened Resolutions
  import opened Sequences
  import opened AuditTrail
  import opened AuditTrailTheorems

  /** The end of a sequence that the window has room for. */
  function Newest(records: seq<AuditRecord>): seq<AuditRecord> {
    if |records| <= MAX_RECENT_AUDIT_RECORDS then records else records[|records| - MAX_RECENT_AUDIT_RECORDS..]
  }

  lemma RememberIsNewest(recent: seq<AuditRecord>, record: AuditRecord)
    ensures Remember(recent, record) == Newest(recent + [record])
  {
    TrimmedKeeps(recent + [record]);
  }

  lemma NewestOfNewest(a: seq<AuditRecord>, x: AuditRecord)
    ensures Newest(Newest(a) + [x]) == Newest(a + [x])
  {
  }

  lemma OneMoreRemembered(recent: seq<AuditRecord>, before: seq<AuditRecord>, record: AuditRecord)
    ensures Remember(Newest(recent + before), record) == Newest(recent + (before + [record]))
  {
    RememberIsNewest(Newest(recent + before), record);
    NewestOfNewest(recent + before, record);
    Associates(recent, before, [record]);
  }

  // ---- preparing ----

  /** Whether writing the index file of one of the first `n` lines fails. */
  predicate IndexBreaks(lines: seq<Line>, n: nat, faults: PrepareFaults) {
    faults.indexWriteFailsAt.Some? && faults.indexWriteFailsAt.value < n && n <= |lines| &&
    lines[faults.indexWriteFailsAt.value].Entry?
  }

  lemma EntriesOneMore(lines: seq<Line>, n: nat)
    requires n < |lines|
    ensures Entries(lines[..n + 1]) ==
            if lines[n].Entry? then Entries(lines[..n]) + [lines[n].record] else Entries(lines[..n])
  {
    assert lines[..n + 1][..n] == lines[..n];
  }

  /** The first `n` lines are indexed. */
  predicate Filled(t: Trail, lines: seq<Line>, n: nat, faults: PrepareFaults, t': Trail)
    requires n <= |lines|
  {
    && t'.recent == Newest(t.recent + Entries(lines[..n]))
    && (t'.persistentIndex <==> t.persistentIndex && !IndexBreaks(lines, n, faults))
  }

  lemma LineIndexed(t: Trail, n: nat, line: Line, faults: PrepareFaults)
    ensures var t' := IndexLine(t, n, line, faults);
            && t'.file == t.file && t'.initialized == t.initialized
            && t'.recent == (if line.Entry? then Remember(t.recent, line.record) else t.recent)
            && (t'.persistentIndex <==> t.persistentIndex && !(line.Entry? && faults.indexWriteFailsAt == Some(n)))
  {
  }

  lemma BreaksOneMore(lines: seq<Line>, n: nat, faults: PrepareFaults)
    requires n < |lines|
    ensures IndexBreaks(lines, n + 1, faults) <==>
              IndexBreaks(lines, n, faults) || (lines[n].Entry? && faults.indexWriteFailsAt == Some(n))
  {
  }

  lemma LineFills(t: Trail, t1: Trail, lines: seq<Line>, n: nat, faults: PrepareFaults)
    requires n < |lines| && Filled(t, lines, n, faults, t1)
    ensures var t2 := IndexLine(t1, n, lines[n], faults);
            Filled(t, lines, n + 1, faults, t2) && t2.file == t1.file && t2.initialized == t1.initialized
  {
    LineIndexed(t1, n, lines[n], faults);
    BreaksOneMore(lines, n, faults);
    EntriesOneMore(lines, n);
    if lines[n].Entry? {
      OneMoreRemembered(t.recent, Entries(lines[..n]), lines[n].record);
    }
  }

  lemma {:induction false} PassFillsTheWindow(t: Trail, lines: seq<Line>, n: nat, faults: PrepareFaults)
    requires n <= |lines| && |t.recent| <= MAX_RECENT_AUDIT_RECORDS
    ensures var (t', ok) := IndexLines(t, lines, n, faults);
            && t'.file == t.file && t'.initialized == t.initialized
            && (ok <==> !(faults.lineFailsAt.Some? && faults.lineFailsAt.value < n))
            && (ok ==> Filled(t, lines, n, faults, t'))
    decreases n
  {
    if n == 0 {
      assert lines[..0] == [] && t.recent + [] == t.recent;
    } else {
      PassFillsTheWindow(t, lines, n - 1, faults);
      var (t1, ok) := IndexLines(t, lines, n - 1, faults);
      if ok && faults.lineFailsAt != Some(n - 1) {
        LineFills(t, t1, lines, n - 1, faults);
      }
    }
  }

  /** Nothing stands in the way of the first preparation. */
  predicate CanPrepare(t: Trail, faults: PrepareFaults) {
    && !faults.parentMissing
    && (t.file.Some? ==>
          !faults.openFails && !(faults.lineFailsAt.Some? && faults.lineFailsAt.value < |t.file.value|))
  }

  /**
    The first preparation succeeds exactly when directory, file and every line can be read; it then
    remembers the newest records and uses the index unless a directory or index file was refused.
   */
  lemma PreparationIsExact(t: Trail, faults: PrepareFaults)
    requires |t.recent| <= MAX_RECENT_AUDIT_RECORDS
    ensures var (t', ok) := Prepare(t, faults);
            && t'.file == t.file && (ok <==> t'.initialized)
            && (ok <==> t.initialized || CanPrepare(t, faults))
            && (t.initialized ==> t' == t)
            && (!t.initialized && ok ==>
                  && t'.recent == Newest(t.recent + History(t))
                  && (t'.persistentIndex <==>
                        !faults.indexDirFails && !IndexBreaks(Lines(t), |Lines(t)|, faults)))
  {
    if !t.initialized && !faults.parentMissing {
      if t.file.None? {
        assert t.recent + History(t) == t.recent;
      } else if !faults.openFails {
        var lines := t.file.value;
        PassFillsTheWindow(t.(persistentIndex := !faults.indexDirFails), lines, |lines|, faults);
        assert lines[..|lines|] == lines;
      }
    }
  }

  /** A new process starts from the file alone: once prepared its window is the file's newest records. */
  lemma NewProcessReadsTheFile(t: Trail, faults: PrepareFaults)
    ensures var (t', ok) := Prepare(Restart(t), faults);
            && (ok <==> CanPrepare(t, faults))
            && (ok ==> t'.initialized && t'.recent == Newest(History(t)) && t'.file == t.file)
  {
    PreparationIsExact(Restart(t), faults);
    assert [] + History(t) == History(t);
  }

  // ---- recording ----

  /** The tier that is asked cannot be read; the window always can. */
  predicate Unreadable(t: Trail, id: Id, faults: Faults) {
    Find(t.recent, id).None? && (if t.persistentIndex then faults.indexReadFails else faults.scanFails)
  }

  /** The record that answers for an id: the window's, else the index's while it is trusted, else the file's. */
  function Answering(t: Trail, id: Id): Option<AuditRecord> {
    if Find(t.recent, id).Some? then Find(t.recent, id)
    else if !t.persistentIndex then Find(History(t), id)
    else if id in t.index then Some(t.index[id].record)
    else None
  }

  /**
    Over all trails and all faults a call succeeds exactly when the trail is prepared and opened, the
    tier that is asked can be read, what it answers is this very record, or nothing and the record is
    then written, and the file is synced, even if nothing was written.
   */
  lemma RecordSucceedsIff(t: Trail, record: AuditRecord, faults: Faults)
    ensures var t1 := Opened(t, faults);
            var answer := Answering(t1, record.id);
            Record(t, record, faults).1 <==>
              && Prepare(t, faults.prepare).1 && !faults.appendOpenFails
              && !Unreadable(t1, record.id, faults)
              && (answer.Some? ==> answer.value == record)
              && (answer.None? ==> !faults.writeFails)
              && !faults.syncFails
  {
  }

  /** On a valid trail the answer is the logged record itself, so only a fault can fail its repeat. */
  lemma KnownRecordSucceedsIff(t: Trail, record: AuditRecord, faults: Faults)
    requires Valid(t) && record in History(t)
    ensures Record(t, record, faults).1 <==>
              && Prepare(t, faults.prepare).1 && !faults.appendOpenFails
              && !Unreadable(Opened(t, faults), record.id, faults) && !faults.syncFails
  {
    var t1 := Opened(t, faults);
    PrepareRestoresTheIndex(t, faults.prepare);
    RecordSucceedsIff(t, record, faults);
    FindSays(t1.recent, record.id);
    FindSays(History(t1), record.id);
    if Prepare(t, faults.prepare).1 {
      assert History(t1) == History(t);
      AnswerIsLogged(t1, record);
    }
  }

  lemma AnswerIsLogged(t: Trail, record: AuditRecord)
    requires Within(t) && record in History(t) && (t.persistentIndex ==> AllIndexed(t))
    ensures Answering(t, record.id) == Some(record)
  {
    FindSays(t.recent, record.id);
    FindSays(History(t), record.id);
    var i :| 0 <= i < |History(t)| && History(t)[i] == record;
    assert AuditTrailTheorems.Logged(History(t), record.id);
    var answer := Answering(t, record.id).value;
    assert answer in History(t) && answer.id == record.id;
    OneRecordPerId(History(t), answer, record);
  }

  /** Success is never reported for a record that was not synced. */
  lemma SuccessIsSynced(t: Trail, record: AuditRecord, faults: Faults)
    requires Record(t, record, faults).1
    ensures !faults.syncFails && !faults.appendOpenFails && Prepare(t, faults.prepare).1
  {
    RecordSucceedsIff(t, record, faults);
  }

  /** Everything a call leaves: an empty file at most short of the write, and after it what the failed steps allow. */
  lemma RecordLeaves(t: Trail, record: AuditRecord, faults: Faults)
    ensures var (t1, prepared) := Prepare(t, faults.prepare);
            var t2 := Opened(t, faults);
            var t' := Record(t, record, faults).0;
            if !prepared || faults.appendOpenFails then t' == t1
            else if Unreadable(t2, record.id, faults) || Answering(t2, record.id).Some? || faults.writeFails
            then t' == t2
            else
              && t'.file == Some(Lines(t1) + [Entry(record)])
              && t'.recent == Newest(t1.recent + [record])
              && t'.index == (if t1.persistentIndex && !faults.syncFails && !faults.indexWriteFails
                              then t1.index[record.id := Digest(record)] else t1.index)
              && t'.persistentIndex == (t1.persistentIndex && (faults.syncFails || !faults.indexWriteFails))
              && t'.initialized == t1.initialized
  {
    RememberIsNewest(Prepare(t, faults.prepare).0.recent, record);
  }
}
