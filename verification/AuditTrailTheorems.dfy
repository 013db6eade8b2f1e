/**
  The three-tier trail against the log it stands for: append a new id once, accept an identical
  repeat without writing, refuse a different record for a known id.
 */
module AuditTrailTheorems {
  import opened Options
  import opened BridgeProtocol
  import opened Resolutions
  import opened AuditTrail

  ghost predicate Logged(history: seq<AuditRecord>, id: Id) {
    exists i :: 0 <= i < |history| && history[i].id == id
  }

  /** What one call may do to an append-once log. */
  ghost predicate AppendOnce(before: seq<AuditRecord>, record: AuditRecord, after: seq<AuditRecord>, ok: bool) {
    if record in before then after == before
    else if Logged(before, record.id) then after == before && !ok
    else after == before + [record] || (after == before && !ok)
  }

  ghost predicate DistinctIds(history: seq<AuditRecord>) {
    forall i, j :: 0 <= i < j < |history| ==> history[i].id != history[j].id
  }

  /** The window and the index only repeat what the log holds. */
  ghost predicate Drawn(t: Trail) {
    && |t.recent| <= MAX_RECENT_AUDIT_RECORDS
    && (forall r <- t.recent :: r in History(t))
    && (forall id <- t.index :: t.index[id].record in History(t) && t.index[id].record.id == id)
  }

  ghost predicate Within(t: Trail) {
    DistinctIds(History(t)) && Drawn(t)
  }

  ghost predicate AllIndexed(t: Trail) {
    forall r <- History(t) :: r.id in t.index
  }

  /** While the index is trusted it knows every record of the log. */
  ghost predicate Valid(t: Trail) {
    && Within(t)
    && (t.initialized && t.persistentIndex ==> AllIndexed(t))
  }

  /** The one event after which the index may miss a record: the append went through, its fsync did not. */
  ghost predicate LosesIndexEntry(t: Trail, record: AuditRecord, faults: Faults) {
    Appends(t, record, faults) && Prepare(t, faults.prepare).0.persistentIndex && faults.syncFails
  }

  /** The trail as a call that got as far as the lookup sees it. */
  function Opened(t: Trail, faults: Faults): Trail {
    var t1 := Prepare(t, faults.prepare).0;
    t1.(file := Some(Lines(t1)))
  }

  /** The call gets past every guard and writes its line. */
  predicate Appends(t: Trail, record: AuditRecord, faults: Faults) {
    && Prepare(t, faults.prepare).1 && !faults.appendOpenFails
    && Look(Opened(t, faults), record.id, faults) == Unknown
    && !faults.writeFails
  }

  /** A logged record that no tier can see: outside the window, and not in the index that is trusted. */
  ghost predicate Missed(t: Trail, id: Id) {
    Logged(History(t), id) && t.persistentIndex && !Logged(t.recent, id) && id !in t.index
  }

  /** The call appends although its id is logged already, because the id is missed. */
  ghost predicate AppendsMissed(t: Trail, record: AuditRecord, faults: Faults) {
    && Prepare(t, faults.prepare).1 && !faults.appendOpenFails
    && Missed(Opened(t, faults), record.id) && !faults.indexReadFails
    && !faults.writeFails
  }

  // ---- preparing ----

  lemma {:induction false} TrimmedKeeps(recent: seq<AuditRecord>)
    ensures |Trimmed(recent)| <= MAX_RECENT_AUDIT_RECORDS
    ensures |Trimmed(recent)| <= |recent| && Trimmed(recent) == recent[|recent| - |Trimmed(recent)|..]
    ensures |recent| <= MAX_RECENT_AUDIT_RECORDS ==> Trimmed(recent) == recent
    ensures |recent| > MAX_RECENT_AUDIT_RECORDS ==> |Trimmed(recent)| == MAX_RECENT_AUDIT_RECORDS
    decreases |recent|
  {
    if |recent| > MAX_RECENT_AUDIT_RECORDS {
      TrimmedKeeps(recent[1..]);
    }
  }

  lemma RememberedIsKnown(recent: seq<AuditRecord>, record: AuditRecord, history: seq<AuditRecord>)
    requires forall r <- recent :: r in history
    requires record in history
    ensures forall r <- Remember(recent, record) :: r in history
    ensures |Remember(recent, record)| <= MAX_RECENT_AUDIT_RECORDS
  {
    TrimmedKeeps(recent + [record]);
  }

  lemma {:induction false} EntryInEntries(lines: seq<Line>, i: nat)
    requires i < |lines| && lines[i].Entry?
    ensures lines[i].record in Entries(lines)
    decreases |lines|
  {
    var last := |lines| - 1;
    var init := Entries(lines[..last]);
    if i < last {
      EntryInEntries(lines[..last], i);
      assert lines[..last][i] == lines[i];
    } else {
      assert Entries(lines) == init + [lines[i].record];
      assert Entries(lines)[|init|] == lines[i].record;
    }
  }

  lemma {:induction false} EntriesArePrefix(lines: seq<Line>, n: nat)
    requires n <= |lines|
    ensures Entries(lines[..n]) <= Entries(lines)
    decreases |lines|
  {
    if n == |lines| {
      assert lines[..n] == lines;
    } else {
      var last := |lines| - 1;
      EntriesArePrefix(lines[..last], n);
      assert lines[..last][..n] == lines[..n];
    }
  }

  /** One indexed line: the index keeps naming the log's own records and gains this one. */
  lemma IndexLineKeeps(t: Trail, i: nat, line: Line, faults: PrepareFaults)
    requires Drawn(t)
    requires line.Entry? ==> line.record in History(t)
    ensures var t' := IndexLine(t, i, line, faults);
            && Drawn(t') && t'.file == t.file && t'.initialized == t.initialized
            && (forall id <- t.index :: id in t'.index)
            && (t'.persistentIndex ==> t.persistentIndex)
            && (line.Entry? && t'.persistentIndex ==> line.record.id in t'.index)
  {
    if line.Entry? {
      RememberedIsKnown(t.recent, line.record, History(t));
    }
  }

  lemma {:induction false} IndexLinesKeeps(t: Trail, lines: seq<Line>, n: nat, faults: PrepareFaults)
    requires Drawn(t) && t.file == Some(lines) && n <= |lines|
    ensures var (t', ok) := IndexLines(t, lines, n, faults);
            && Drawn(t') && t'.file == t.file && t'.initialized == t.initialized
            && (t'.persistentIndex ==> t.persistentIndex)
            && (ok && t'.persistentIndex ==> forall r <- Entries(lines[..n]) :: r.id in t'.index)
    decreases n
  {
    if n > 0 {
      IndexLinesKeeps(t, lines, n - 1, faults);
      var (t1, ok) := IndexLines(t, lines, n - 1, faults);
      if ok && faults.lineFailsAt != Some(n - 1) {
        if lines[n - 1].Entry? {
          EntryInEntries(lines, n - 1);
        }
        IndexLineKeeps(t1, n - 1, lines[n - 1], faults);
        assert lines[..n][..n - 1] == lines[..n - 1];
      }
    }
  }

  /**
    Preparing, interrupted anywhere, keeps the log; the first preparation to complete after a start
    makes the index complete, whatever it was missing before.
   */
  lemma PrepareRestoresTheIndex(t: Trail, faults: PrepareFaults)
    requires Drawn(t)
    ensures var (t', ok) := Prepare(t, faults);
            && Drawn(t') && t'.file == t.file
            && (ok <==> t'.initialized)
            && (!t.initialized && ok && t'.persistentIndex ==> AllIndexed(t'))
            && (Valid(t) ==> Valid(t'))
  {
    if !t.initialized && !faults.parentMissing && t.file.Some? && !faults.openFails {
      var lines := t.file.value;
      var t1 := t.(persistentIndex := !faults.indexDirFails);
      IndexLinesKeeps(t1, lines, |lines|, faults);
      assert lines[..|lines|] == lines;
    }
  }

  // ---- looking up ----

  lemma {:induction false} FindSays(records: seq<AuditRecord>, id: Id)
    ensures Find(records, id).Some? ==> Find(records, id).value in records && Find(records, id).value.id == id
    ensures Find(records, id).None? <==> !Logged(records, id)
    decreases |records|
  {
    if records != [] {
      FindSays(records[1..], id);
      if records[0].id != id && Logged(records, id) {
        var i :| 0 <= i < |records| && records[i].id == id;
        assert records[1..][i - 1].id == id;
      }
      if Logged(records[1..], id) {
        var i :| 0 <= i < |records[1..]| && records[1..][i].id == id;
        assert records[i + 1].id == id;
      }
    }
  }

  lemma OneRecordPerId(history: seq<AuditRecord>, a: AuditRecord, b: AuditRecord)
    requires DistinctIds(history) && a in history && b in history && a.id == b.id
    ensures a == b
  {
  }

  /** The tiers never invent a record, and miss one exactly when it left the window unindexed. */
  lemma LookupIsExact(t: Trail, id: Id, faults: Faults)
    requires Drawn(t)
    ensures var l := Look(t, id, faults);
            && (l.Cached? ==> l.record in History(t) && l.record.id == id)
            && (l.Indexed? ==> l.digest.record in History(t) && l.digest.record.id == id)
            && (l.Unknown? && Logged(History(t), id) <==> Missed(t, id) && !faults.indexReadFails)
            && (t.persistentIndex && AllIndexed(t) && l.Unknown? ==> !Logged(History(t), id))
  {
    FindSays(t.recent, id);
    FindSays(History(t), id);
    if t.persistentIndex && AllIndexed(t) && Logged(History(t), id) {
      var i :| 0 <= i < |History(t)| && History(t)[i].id == id;
      assert History(t)[i] in History(t);
      assert id in t.index;
    }
  }

  // ---- recording ----

  lemma HistoryAppend(lines: seq<Line>, record: AuditRecord)
    ensures Entries(lines + [Entry(record)]) == Entries(lines) + [record]
  {
    assert (lines + [Entry(record)])[..|lines|] == lines;
  }

  lemma AppendKeeps(t: Trail, record: AuditRecord, faults: Faults)
    requires Drawn(t)
    ensures var (t', ok) := Append(t, record, faults);
            && Drawn(t') && t'.initialized == t.initialized
            && History(t') == (if faults.writeFails then History(t) else History(t) + [record])
            && (ok ==> !faults.writeFails && !faults.syncFails)
            && (AllIndexed(t) && t'.persistentIndex && !(faults.syncFails && !faults.writeFails) ==> AllIndexed(t'))
            && (t'.persistentIndex ==> t.persistentIndex)
  {
    if !faults.writeFails {
      HistoryAppend(Lines(t), record);
      var history' := History(t) + [record];
      forall r | r in t.recent
        ensures r in history'
      {
        assert r in History(t);
      }
      assert history'[|History(t)|] == record;
      RememberedIsKnown(t.recent, record, history');
    }
  }

  /** What one call does to the log, whatever fails and whatever the tiers have lost. */
  lemma RecordOutcome(t: Trail, record: AuditRecord, faults: Faults)
    requires Drawn(t)
    ensures var (t', ok) := Record(t, record, faults);
            && Drawn(t')
            && History(t') == (if Appends(t, record, faults) then History(t) + [record] else History(t))
            && (ok ==> record in History(t'))
            && (Appends(t, record, faults) && Logged(History(t), record.id) <==> AppendsMissed(t, record, faults))
            && (Valid(t) ==> !AppendsMissed(t, record, faults))
  {
    PrepareRestoresTheIndex(t, faults.prepare);
    var (t1, prepared) := Prepare(t, faults.prepare);
    var t2 := Opened(t, faults);
    assert History(t2) == History(t1) == History(t);
    LookupIsExact(t2, record.id, faults);
    if Appends(t, record, faults) {
      assert (History(t) + [record])[|History(t)|] == record;
    }
    if prepared && !faults.appendOpenFails && Look(t2, record.id, faults).Unknown? {
      AppendKeeps(t2, record, faults);
    }
  }

  lemma DistinctAfter(history: seq<AuditRecord>, record: AuditRecord)
    requires DistinctIds(history)
    ensures DistinctIds(history + [record]) <==> !Logged(history, record.id)
  {
    var longer := history + [record];
    if i :| 0 <= i < |history| && history[i].id == record.id {
      assert longer[i].id == longer[|history|].id;
    }
  }

  /**
    One `record` call refines the append-once log under any faults, and keeps the log free of
    repeated ids, if and only if it does not append a missed id; on a valid trail it never does.
   */
  lemma RecordRefinesAppendOnce(t: Trail, record: AuditRecord, faults: Faults)
    requires Within(t)
    ensures var (t', ok) := Record(t, record, faults);
            && (AppendOnce(History(t), record, History(t'), ok) <==> !AppendsMissed(t, record, faults))
            && (Within(t') <==> !AppendsMissed(t, record, faults))
            && (ok ==> record in History(t'))
            && (Valid(t) ==> !AppendsMissed(t, record, faults))
  {
    RecordOutcome(t, record, faults);
    DistinctAfter(History(t), record);
    if record in History(t) {
      assert Logged(History(t), record.id);
    }
  }

  /** A valid trail stays valid, except that an append whose fsync fails may leave the index one record short. */
  lemma RecordKeepsValid(t: Trail, record: AuditRecord, faults: Faults)
    requires Valid(t) && !LosesIndexEntry(t, record, faults)
    ensures Valid(Record(t, record, faults).0)
  {
    RecordRefinesAppendOnce(t, record, faults);
    PrepareRestoresTheIndex(t, faults.prepare);
    if Prepare(t, faults.prepare).1 && !faults.appendOpenFails {
      var t2 := Opened(t, faults);
      assert History(t2) == History(t);
      if Look(t2, record.id, faults).Unknown? {
        AppendKeeps(t2, record, faults);
      }
    }
  }

  function NoPrepareFaults(): PrepareFaults {
    PrepareFaults(false, false, false, None, None)
  }

  function NoFaults(): Faults {
    Faults(NoPrepareFaults(), false, false, false, false, false, false)
  }

  lemma {:induction false} AllLinesRead(t: Trail, lines: seq<Line>, n: nat, faults: PrepareFaults)
    requires n <= |lines| && faults.lineFailsAt.None?
    ensures IndexLines(t, lines, n, faults).1
    decreases n
  {
    if n > 0 {
      AllLinesRead(t, lines, n - 1, faults);
    }
  }

  /** When nothing fails the refinement is exact: the call does what the simple log does, and says so. */
  lemma FaultlessCallIsTheLog(t: Trail, record: AuditRecord)
    requires Valid(t)
    ensures var (t', ok) := Record(t, record, NoFaults());
            && Valid(t')
            && (ok <==> (Logged(History(t), record.id) ==> record in History(t)))
            && History(t') == if Logged(History(t), record.id) then History(t) else History(t) + [record]
  {
    if t.file.Some? {
      AllLinesRead(t.(persistentIndex := true), t.file.value, |t.file.value|, NoPrepareFaults());
    }
    PrepareRestoresTheIndex(t, NoPrepareFaults());
    var t1 := Prepare(t, NoPrepareFaults()).0;
    LookupIsExact(t1.(file := Some(Lines(t1))), record.id, NoFaults());
    RecordRefinesAppendOnce(t, record, NoFaults());
    RecordKeepsValid(t, record, NoFaults());
    if record in History(t) {
      assert Logged(History(t), record.id);
    }
  }

  // ---- whole runs ----

  datatype Op = RecordOp(record: AuditRecord, faults: Faults) | PrepareOp(prepareFaults: PrepareFaults) | RestartOp

  function Apply(t: Trail, op: Op): (Trail, bool) {
    match op
    case RecordOp(record, faults) => Record(t, record, faults)
    case PrepareOp(faults) => Prepare(t, faults)
    case RestartOp => (Restart(t), true)
  }

  function RunOps(t: Trail, ops: seq<Op>): Trail
    decreases |ops|
  {
    if ops == [] then t else RunOps(Apply(t, ops[0]).0, ops[1..])
  }

  /** No call of the run appends a missed id. */
  ghost predicate NeverRepeats(t: Trail, ops: seq<Op>)
    decreases |ops|
  {
    ops == [] ||
    (&& (ops[0].RecordOp? ==> !AppendsMissed(t, ops[0].record, ops[0].faults))
     && NeverRepeats(Apply(t, ops[0]).0, ops[1..]))
  }

  /** No call of the run loses an index entry. */
  ghost predicate Synced(t: Trail, ops: seq<Op>)
    decreases |ops|
  {
    ops == [] ||
    (&& (ops[0].RecordOp? ==> !LosesIndexEntry(t, ops[0].record, ops[0].faults))
     && Synced(Apply(t, ops[0]).0, ops[1..]))
  }

  lemma ApplyOutcome(t: Trail, op: Op)
    requires Drawn(t)
    ensures var t' := Apply(t, op).0;
            && Drawn(t') && History(t) <= History(t')
            && (DistinctIds(History(t)) ==>
                  (DistinctIds(History(t')) <==> op.RecordOp? ==> !AppendsMissed(t, op.record, op.faults)))
  {
    match op
    case RecordOp(record, faults) =>
      RecordOutcome(t, record, faults);
      if DistinctIds(History(t)) {
        DistinctAfter(History(t), record);
      }
    case PrepareOp(faults) => PrepareRestoresTheIndex(t, faults);
    case RestartOp =>
  }

  /**
    Over any run of calls, failures and restarts the log only grows, and its ids stay distinct if
    and only if no call of the run appended a missed id.
   */
  lemma {:induction false} RunsOnlyAppend(t: Trail, ops: seq<Op>)
    requires Drawn(t)
    ensures var end := RunOps(t, ops);
            && Drawn(end) && History(t) <= History(end)
            && (DistinctIds(History(end)) ==> DistinctIds(History(t)))
            && (DistinctIds(History(t)) ==> (DistinctIds(History(end)) <==> NeverRepeats(t, ops)))
    decreases |ops|
  {
    if ops != [] {
      ApplyOutcome(t, ops[0]);
      var t1 := Apply(t, ops[0]).0;
      RunsOnlyAppend(t1, ops[1..]);
      if DistinctIds(History(RunOps(t, ops))) {
        forall i, j | 0 <= i < j < |History(t)|
          ensures History(t)[i].id != History(t)[j].id
        {
          assert History(t1)[i].id != History(t1)[j].id;
        }
      }
    }
  }

  /** A run from a valid trail in which every append is synced never repeats an id. */
  lemma {:induction false} SyncedRunsNeverRepeat(t: Trail, ops: seq<Op>)
    requires Valid(t) && Synced(t, ops)
    ensures Valid(RunOps(t, ops)) && NeverRepeats(t, ops)
    decreases |ops|
  {
    if ops != [] {
      match ops[0] {
        case RecordOp(record, faults) =>
          RecordRefinesAppendOnce(t, record, faults);
          RecordKeepsValid(t, record, faults);
        case PrepareOp(faults) => PrepareRestoresTheIndex(t, faults);
        case RestartOp =>
      }
      SyncedRunsNeverRepeat(Apply(t, ops[0]).0, ops[1..]);
    }
  }

  // ---- an accepted record is final ----

  /** The tiers agree that `record` is the one record of its id. */
  ghost predicate Settled(t: Trail, record: AuditRecord) {
    && record in History(t)
    && (forall r <- History(t) :: r.id == record.id ==> r == record)
    && (forall r <- t.recent :: r.id == record.id ==> r == record)
    && (record.id in t.index ==> t.index[record.id] == Digest(record))
  }

  /** And while the index is trusted it knows the record. */
  ghost predicate Pinned(t: Trail, record: AuditRecord) {
    && Settled(t, record)
    && (t.initialized && t.persistentIndex ==> record.id in t.index)
  }

  lemma RememberKeepsSettled(recent: seq<AuditRecord>, line: AuditRecord, record: AuditRecord)
    requires forall r <- recent :: r.id == record.id ==> r == record
    requires line.id == record.id ==> line == record
    ensures forall r <- Remember(recent, line) :: r.id == record.id ==> r == record
  {
    TrimmedKeeps(recent + [line]);
  }

  lemma {:induction false} IndexLinesSettled(t: Trail, lines: seq<Line>, n: nat, faults: PrepareFaults,
                                           record: AuditRecord)
    requires Settled(t, record) && t.file == Some(lines) && n <= |lines|
    ensures var (t', ok) := IndexLines(t, lines, n, faults);
            && Settled(t', record) && t'.file == t.file && t'.initialized == t.initialized
            && (t'.persistentIndex ==> t.persistentIndex)
            && (ok && t'.persistentIndex && record in Entries(lines[..n]) ==> record.id in t'.index)
    decreases n
  {
    if n > 0 {
      IndexLinesSettled(t, lines, n - 1, faults, record);
      var (t1, ok) := IndexLines(t, lines, n - 1, faults);
      assert lines[..n][..n - 1] == lines[..n - 1];
      if ok && faults.lineFailsAt != Some(n - 1) && lines[n - 1].Entry? {
        EntryInEntries(lines, n - 1);
        RememberKeepsSettled(t1.recent, lines[n - 1].record, record);
      }
    }
  }

  lemma PrepareKeepsPinned(t: Trail, faults: PrepareFaults, record: AuditRecord)
    requires Pinned(t, record)
    ensures Pinned(Prepare(t, faults).0, record) && Prepare(t, faults).0.file == t.file
    ensures Prepare(t, faults).1 <==> Prepare(t, faults).0.initialized
  {
    if !t.initialized && !faults.parentMissing && t.file.Some? && !faults.openFails {
      var lines := t.file.value;
      IndexLinesSettled(t.(persistentIndex := !faults.indexDirFails), lines, |lines|, faults, record);
      assert lines[..|lines|] == lines;
    }
  }

  /** Every tier that answers about the id answers with the record. */
  lemma LookupOfPinned(t: Trail, record: AuditRecord, faults: Faults)
    requires Pinned(t, record) && t.initialized
    ensures Look(t, record.id, faults) in {Cached(record), Indexed(Digest(record)), LookupFailed}
  {
    FindSays(t.recent, record.id);
    FindSays(History(t), record.id);
    var i :| 0 <= i < |History(t)| && History(t)[i] == record;
    assert Logged(History(t), record.id);
  }

  lemma AppendKeepsPinned(t: Trail, other: AuditRecord, faults: Faults, record: AuditRecord)
    requires Pinned(t, record) && other.id != record.id
    ensures Pinned(Append(t, other, faults).0, record)
  {
    HistoryAppend(Lines(t), other);
    RememberKeepsSettled(t.recent, other, record);
  }

  /** No call changes a pinned record: its own id writes nothing, another id leaves it pinned. */
  lemma RecordKeepsPinned(t: Trail, other: AuditRecord, faults: Faults, record: AuditRecord)
    requires Pinned(t, record)
    ensures var (t', ok) := Record(t, other, faults);
            && Pinned(t', record)
            && (other.id == record.id ==> History(t') == History(t) && (ok ==> other == record))
  {
    PrepareKeepsPinned(t, faults.prepare, record);
    if Prepare(t, faults.prepare).1 && !faults.appendOpenFails {
      var t2 := Opened(t, faults);
      assert History(t2) == History(t);
      assert Pinned(t2, record);
      if other.id == record.id {
        LookupOfPinned(t2, record, faults);
      } else {
        AppendKeepsPinned(t2, other, faults, record);
      }
    }
  }

  lemma {:induction false} RunsKeepPinned(t: Trail, ops: seq<Op>, record: AuditRecord)
    requires Pinned(t, record)
    ensures Pinned(RunOps(t, ops), record)
    decreases |ops|
  {
    if ops != [] {
      match ops[0] {
        case RecordOp(other, faults) => RecordKeepsPinned(t, other, faults, record);
        case PrepareOp(faults) => PrepareKeepsPinned(t, faults, record);
        case RestartOp =>
      }
      RunsKeepPinned(Apply(t, ops[0]).0, ops[1..], record);
    }
  }

  /** On a valid trail, success pins the record. */
  lemma AcceptedIsPinned(t: Trail, record: AuditRecord, faults: Faults)
    requires Valid(t) && Record(t, record, faults).1
    ensures Pinned(Record(t, record, faults).0, record)
  {
    RecordRefinesAppendOnce(t, record, faults);
    RecordOutcome(t, record, faults);
    RecordKeepsValid(t, record, faults);
    var t' := Record(t, record, faults).0;
    forall r | r in History(t') && r.id == record.id
      ensures r == record
    {
      OneRecordPerId(History(t'), r, record);
    }
  }

  /**
    Once a valid trail accepts a record, no later call of any run, with any faults, failed fsyncs
    and restarts included, changes it: an identical record writes nothing and a different one for
    its id is refused.
   */
  lemma AcceptedRecordIsFinal(t: Trail, record: AuditRecord, faults: Faults, ops: seq<Op>,
                              later: AuditRecord, laterFaults: Faults)
    requires Valid(t) && Record(t, record, faults).1 && later.id == record.id
    ensures var end := RunOps(Record(t, record, faults).0, ops);
            var (t', ok) := Record(end, later, laterFaults);
            && record in History(end)
            && History(t') == History(end)
            && (ok ==> later == record)
  {
    AcceptedIsPinned(t, record, faults);
    RunsKeepPinned(Record(t, record, faults).0, ops, record);
    RecordKeepsPinned(RunOps(Record(t, record, faults).0, ops), later, laterFaults, record);
  }

  // ---- where the refinement ends ----

  function Filler(base: Id, k: nat): AuditRecord {
    AuditRecord(base + k, Approved, "filler", 0, None)
  }

  /** `n` flawless calls with fresh ids `base`, `base + 1`, ... */
  function Fill(base: Id, n: nat): seq<Op> {
    seq(n, k requires 0 <= k => RecordOp(Filler(base, k), NoFaults()))
  }

  function Fillers(base: Id, n: nat): seq<AuditRecord> {
    seq(n, k requires 0 <= k => Filler(base, k))
  }

  lemma {:induction false} RunOpsAppend(t: Trail, first: seq<Op>, last: Op)
    ensures RunOps(t, first + [last]) == Apply(RunOps(t, first), last).0
    decreases |first|
  {
    if first == [] {
      assert [last][1..] == [];
    } else {
      assert (first + [last])[1..] == first[1..] + [last];
      RunOpsAppend(Apply(t, first[0]).0, first[1..], last);
    }
  }

  /** A flawless call with an id no tier knows appends, remembers and indexes it. */
  lemma FreshAppend(t: Trail, record: AuditRecord)
    requires t.initialized && t.persistentIndex && t.file.Some?
    requires !Logged(t.recent, record.id) && record.id !in t.index
    ensures Record(t, record, NoFaults()) ==
            (t.(file := Some(Lines(t) + [Entry(record)]), recent := Remember(t.recent, record),
                index := t.index[record.id := Digest(record)]), true)
  {
    FindSays(t.recent, record.id);
  }

  /** After `n` fresh records: they are the newest of the window, and all that the index gained. */
  ghost predicate Filled(t: Trail, t': Trail, base: Id, n: nat) {
    && t'.initialized && t'.persistentIndex && t'.file.Some?
    && Lines(t) <= Lines(t')
    && (forall id :: id in t'.index <==> id in t.index || base <= id < base + n)
    && n <= |t'.recent| <= MAX_RECENT_AUDIT_RECORDS
    && t'.recent[|t'.recent| - n..] == Fillers(base, n)
    && (forall r <- t'.recent :: r in t.recent || base <= r.id < base + n)
  }

  /** What is kept of a grown sequence ends as the sequence did, with the new element behind it. */
  lemma LastOfKept<T>(s: seq<T>, x: T, n: nat, kept: seq<T>)
    requires n <= |s| && n + 1 <= |kept| <= |s| + 1
    requires kept == (s + [x])[|s| + 1 - |kept|..]
    ensures kept[|kept| - (n + 1)..] == s[|s| - n..] + [x]
  {
  }

  lemma FillKept(recent: seq<AuditRecord>, base: Id, n: nat, kept: seq<AuditRecord>)
    requires n <= |recent| && n + 1 <= |kept| <= |recent| + 1
    requires kept == (recent + [Filler(base, n)])[|recent| + 1 - |kept|..]
    requires recent[|recent| - n..] == Fillers(base, n)
    ensures kept[|kept| - (n + 1)..] == Fillers(base, n + 1)
  {
    LastOfKept(recent, Filler(base, n), n, kept);
    OneMoreFiller(base, n);
  }

  /** Remembering the next fresh record extends the fresh suffix of the window by one. */
  lemma FillWindow(recent: seq<AuditRecord>, base: Id, n: nat)
    requires n <= |recent| <= MAX_RECENT_AUDIT_RECORDS && n < MAX_RECENT_AUDIT_RECORDS
    requires recent[|recent| - n..] == Fillers(base, n)
    ensures var recent' := Remember(recent, Filler(base, n));
            && n + 1 <= |recent'| <= MAX_RECENT_AUDIT_RECORDS
            && recent'[|recent'| - (n + 1)..] == Fillers(base, n + 1)
  {
    TrimmedKeeps(recent + [Filler(base, n)]);
    FillKept(recent, base, n, Remember(recent, Filler(base, n)));
  }

  lemma RememberAddsOne(recent: seq<AuditRecord>, record: AuditRecord)
    ensures forall r <- Remember(recent, record) :: r in recent || r == record
  {
    TrimmedKeeps(recent + [record]);
  }

  lemma OneMoreFiller(base: Id, n: nat)
    ensures Fillers(base, n + 1) == Fillers(base, n) + [Filler(base, n)]
  {
  }

  lemma FillOne(t: Trail, t1: Trail, base: Id, n: nat)
    requires Filled(t, t1, base, n) && n < MAX_RECENT_AUDIT_RECORDS
    requires forall r <- t.recent :: r.id < base
    requires forall id <- t.index :: id < base
    ensures Filled(t, Record(t1, Filler(base, n), NoFaults()).0, base, n + 1)
    ensures Record(t1, Filler(base, n), NoFaults()).1
  {
    var record := Filler(base, n);
    forall i | 0 <= i < |t1.recent|
      ensures t1.recent[i].id != record.id
    {
      assert t1.recent[i] in t1.recent;
    }
    FreshAppend(t1, record);
    FillWindow(t1.recent, base, n);
    RememberAddsOne(t1.recent, record);
  }

  /**
    Filling the window with fresh records pushes everything older out of it, while the index
    gains exactly the fresh ids.
   */
  lemma {:induction false} FillEvicts(t: Trail, base: Id, n: nat)
    requires t.initialized && t.persistentIndex && t.file.Some?
    requires n <= MAX_RECENT_AUDIT_RECORDS && |t.recent| <= MAX_RECENT_AUDIT_RECORDS
    requires forall r <- t.recent :: r.id < base
    requires forall id <- t.index :: id < base
    ensures Filled(t, RunOps(t, Fill(base, n)), base, n)
    decreases n
  {
    if n == 0 {
      assert t.recent[|t.recent|..] == Fillers(base, 0);
    } else {
      FillEvicts(t, base, n - 1);
      var op := RecordOp(Filler(base, n - 1), NoFaults());
      assert Fill(base, n) == Fill(base, n - 1) + [op];
      RunOpsAppend(t, Fill(base, n - 1), op);
      FillOne(t, RunOps(t, Fill(base, n - 1)), base, n - 1);
    }
  }

  /**
    The premise cannot be dropped.  After any append whose fsync failed while the index was in use,
    1024 other requests push the record out of memory; then a contradicting decision for the same
    request is accepted and appended, and the log holds both.
   */
  lemma LostIndexEntryAllowsContradiction(t: Trail, record: AuditRecord, faults: Faults, base: Id,
                                          contradiction: AuditRecord)
    requires Valid(t) && LosesIndexEntry(t, record, faults)
    requires record.id < base && forall r <- History(t) :: r.id < base
    requires contradiction.id == record.id && contradiction != record
    ensures !Record(t, record, faults).1
    ensures var end := RunOps(Record(t, record, faults).0, Fill(base, MAX_RECENT_AUDIT_RECORDS));
            && record in History(end)
            && Record(end, contradiction, NoFaults()).1
            && History(Record(end, contradiction, NoFaults()).0) == History(end) + [contradiction]
  {
    LostEntryState(t, record, faults);
    var t' := Record(t, record, faults).0;
    forall r | r in t'.recent
      ensures r.id < base
    {
      assert r in History(t) + [record];
    }
    assert History(t')[|History(t)|] == record;
    ContradictionAccepted(t', record, base, contradiction);
  }

  /** A record whose id the window does not hold is found in it right after it is remembered. */
  lemma FindRemembered(recent: seq<AuditRecord>, record: AuditRecord)
    requires Find(recent, record.id).None?
    ensures Find(Remember(recent, record), record.id) == Some(record)
  {
    FindSays(recent, record.id);
    forall r | r in recent
      ensures r.id != record.id
    {
      var i :| 0 <= i < |recent| && recent[i] == r;
    }
    RememberKeepsSettled(recent, record, record);
    TrimmedKeeps(recent + [record]);
    var recent' := Remember(recent, record);
    assert recent'[|recent'| - 1].id == record.id;
    FindSays(recent', record.id);
  }

  /**
    Even an acknowledged record can be contradicted: after such an append an immediate retry is
    answered from the window with success, and 1024 other requests later a contradicting decision
    is accepted all the same.
   */
  lemma AcknowledgedRecordIsContradicted(t: Trail, record: AuditRecord, faults: Faults, base: Id,
                                         contradiction: AuditRecord)
    requires Valid(t) && LosesIndexEntry(t, record, faults)
    requires record.id < base && forall r <- History(t) :: r.id < base
    requires contradiction.id == record.id && contradiction != record
    ensures var lost := Record(t, record, faults).0;
            var (retried, acknowledged) := Record(lost, record, NoFaults());
            var end := RunOps(retried, Fill(base, MAX_RECENT_AUDIT_RECORDS));
            && acknowledged && History(retried) == History(lost)
            && record in History(end)
            && Record(end, contradiction, NoFaults()).1
            && History(Record(end, contradiction, NoFaults()).0) == History(end) + [contradiction]
  {
    LostIndexEntryAllowsContradiction(t, record, faults, base, contradiction);
    LostEntryState(t, record, faults);
    var lost := Record(t, record, faults).0;
    assert lost.(file := Some(Lines(lost))) == lost;
    assert Record(lost, record, NoFaults()) == (lost, true);
  }

  /** What a lost index entry leaves: the record in the log and the window, but not in the index. */
  lemma LostEntryState(t: Trail, record: AuditRecord, faults: Faults)
    requires Valid(t) && LosesIndexEntry(t, record, faults)
    ensures var (t', ok) := Record(t, record, faults);
            && !ok && t'.initialized && t'.persistentIndex && t'.file.Some?
            && History(t') == History(t) + [record]
            && record.id !in t'.index && (forall id <- t'.index :: t'.index[id].record in History(t))
            && (forall id <- t'.index :: t'.index[id].record.id == id)
            && |t'.recent| <= MAX_RECENT_AUDIT_RECORDS && (forall r <- t'.recent :: r in History(t'))
            && Find(t'.recent, record.id) == Some(record)
  {
    PrepareRestoresTheIndex(t, faults.prepare);
    var t1 := Prepare(t, faults.prepare).0;
    var t2 := t1.(file := Some(Lines(t1)));
    assert History(t2) == History(t1) == History(t);
    HistoryAppend(Lines(t2), record);
    RememberedIsKnown(t2.recent, record, History(t2) + [record]) by {
      forall r | r in t2.recent
        ensures r in History(t2) + [record]
      {
        assert r in History(t1);
      }
      assert (History(t2) + [record])[|History(t2)|] == record;
    }
    FindRemembered(t2.recent, record);
    assert Record(t, record, faults) ==
           (t2.(file := Some(Lines(t2) + [Entry(record)]), recent := Remember(t2.recent, record)), false);
  }

  lemma ContradictionAccepted(t1: Trail, record: AuditRecord, base: Id, contradiction: AuditRecord)
    requires t1.initialized && t1.persistentIndex && t1.file.Some?
    requires |t1.recent| <= MAX_RECENT_AUDIT_RECORDS
    requires forall r <- t1.recent :: r.id < base
    requires forall id <- t1.index :: id < base
    requires record in History(t1) && record.id < base && record.id !in t1.index
    requires contradiction.id == record.id
    ensures var end := RunOps(t1, Fill(base, MAX_RECENT_AUDIT_RECORDS));
            && record in History(end)
            && Record(end, contradiction, NoFaults()).1
            && History(Record(end, contradiction, NoFaults()).0) == History(end) + [contradiction]
  {
    FillEvicts(t1, base, MAX_RECENT_AUDIT_RECORDS);
    var end := RunOps(t1, Fill(base, MAX_RECENT_AUDIT_RECORDS));
    assert end.recent == Fillers(base, MAX_RECENT_AUDIT_RECORDS);
    assert !Logged(end.recent, record.id);
    FreshAppend(end, contradiction);
    HistoryAppend(Lines(end), contradiction);
    EntriesArePrefix(Lines(end), |Lines(t1)|);
    assert Lines(end)[..|Lines(t1)|] == Lines(t1);
  }

  // ---- when an accepted record is final ----

  /** After `ops` the record is still logged, and a later call for its id changes nothing. */
  ghost predicate StaysFinal(t: Trail, record: AuditRecord, ops: seq<Op>, later: AuditRecord, faults: Faults) {
    var end := RunOps(t, ops);
    var (t', ok) := Record(end, later, faults);
    later.id == record.id ==> record in History(end) && History(t') == History(end) && (ok ==> later == record)
  }

  lemma {:induction false} KeysBelow(ids: set<Id>) returns (bound: Id)
    ensures forall id <- ids :: id < bound
    decreases ids
  {
    if ids == {} {
      bound := 0;
    } else {
      var id :| id in ids;
      var rest := KeysBelow(ids - {id});
      bound := if id < rest then rest else id + 1;
      assert forall x <- ids :: x == id || x in ids - {id};
    }
  }

  lemma {:induction false} RecordsBelow(records: seq<AuditRecord>) returns (bound: Id)
    ensures forall r <- records :: r.id < bound
    decreases |records|
  {
    if records == [] {
      bound := 0;
    } else {
      var rest := RecordsBelow(records[1..]);
      bound := if records[0].id < rest then rest else records[0].id + 1;
      assert forall x <- records :: x == records[0] || x in records[1..];
    }
  }

  function Contradicting(record: AuditRecord): (other: AuditRecord)
    ensures other.id == record.id && other != record
  {
    record.(decision := if record.decision == Approved then Rejected else Approved)
  }

  /** An id that a trusted index misses can be contradicted, wherever the record is cached now. */
  lemma UnpinnedIsContradicted(t: Trail, record: AuditRecord)
    requires Drawn(t) && Settled(t, record) && !Pinned(t, record)
    ensures exists base: Id ::
              !StaysFinal(t, record, Fill(base, MAX_RECENT_AUDIT_RECORDS), Contradicting(record), NoFaults())
  {
    var a := KeysBelow(t.index.Keys);
    var b := RecordsBelow(t.recent);
    var base: Id := a + b + record.id + 1;
    ContradictionAccepted(t, record, base, Contradicting(record));
    assert !StaysFinal(t, record, Fill(base, MAX_RECENT_AUDIT_RECORDS), Contradicting(record), NoFaults());
  }

  /**
    The exact condition of finality: a logged record, the only one of its id, stays final over all
    runs if and only if its id is in the index whenever the trail is initialized with the index in
    use; the window that answers for it now is not enough.
   */
  lemma FinalIffPinned(t: Trail, record: AuditRecord)
    requires Drawn(t) && Settled(t, record)
    ensures (t.initialized && t.persistentIndex ==> record.id in t.index) <==>
              forall ops: seq<Op>, later: AuditRecord, faults: Faults :: StaysFinal(t, record, ops, later, faults)
  {
    if Pinned(t, record) {
      forall ops: seq<Op>, later: AuditRecord, faults: Faults
        ensures StaysFinal(t, record, ops, later, faults)
      {
        RunsKeepPinned(t, ops, record);
        RecordKeepsPinned(RunOps(t, ops), later, faults, record);
      }
    } else {
      UnpinnedIsContradicted(t, record);
    }
  }
}
