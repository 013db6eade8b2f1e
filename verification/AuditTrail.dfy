/**
  The bridge's append-only audit trail: an NDJSON file, a bounded window of recent records in
  memory, and a directory with one digest file per request id.
 */
module AuditTrail {
  import opened Options
  import opened BridgeProtocol
  import opened Resolutions

  const MAX_RECENT_AUDIT_RECORDS: nat := 1024

  /** SHA-256 of the serialized record, free of collisions. */
  datatype Digest = Digest(record: AuditRecord)

  datatype Line = Entry(record: AuditRecord) | Malformed | Blank

  /** File and index directory on disk, then the state behind the mutex. */
  datatype Trail = Trail(
    file: Option<seq<Line>>,
    index: map<Id, Digest>,
    initialized: bool,
    persistentIndex: bool,
    recent: seq<AuditRecord>
  )

  /** What the file system refuses during one `prepare`. */
  datatype PrepareFaults = PrepareFaults(
    parentMissing: bool,
    indexDirFails: bool,
    openFails: bool,
    lineFailsAt: Option<nat>,
    indexWriteFailsAt: Option<nat>
  )

  /** What the file system refuses during one `record`. */
  datatype Faults = Faults(
    prepare: PrepareFaults,
    appendOpenFails: bool,
    indexReadFails: bool,
    scanFails: bool,
    writeFails: bool,
    syncFails: bool,
    indexWriteFails: bool
  )

  function Remember(recent: seq<AuditRecord>, record: AuditRecord): seq<AuditRecord> {
    Trimmed(recent + [record])
  }

  function Trimmed(recent: seq<AuditRecord>): seq<AuditRecord>
    decreases |recent|
  {
    if |recent| > MAX_RECENT_AUDIT_RECORDS then Trimmed(recent[1..]) else recent
  }

  function Lines(t: Trail): seq<Line> {
    if t.file.None? then [] else t.file.value
  }

  /** The records of the file in append order, malformed and blank lines skipped. */
  function Entries(lines: seq<Line>): seq<AuditRecord>
    decreases |lines|
  {
    if lines == [] then []
    else
      var init := Entries(lines[..|lines| - 1]);
      var last := lines[|lines| - 1];
      if last.Entry? then init + [last.record] else init
  }

  function History(t: Trail): seq<AuditRecord> {
    Entries(Lines(t))
  }

  /** One line of the initial indexing pass. */
  function IndexLine(t: Trail, i: nat, line: Line, faults: PrepareFaults): Trail {
    if !line.Entry? then t
    else
      var t1 :=
        if !t.persistentIndex then t
        else if faults.indexWriteFailsAt == Some(i) then t.(persistentIndex := false)
        else t.(index := t.index[line.record.id := Digest(line.record)]);
      t1.(recent := Remember(t1.recent, line.record))
  }

  /** Indexes the first `n` lines; false when one of them cannot be read. */
  function IndexLines(t: Trail, lines: seq<Line>, n: nat, faults: PrepareFaults): (Trail, bool)
    requires n <= |lines|
    decreases n
  {
    if n == 0 then (t, true)
    else
      var (t1, ok) := IndexLines(t, lines, n - 1, faults);
      if !ok || faults.lineFailsAt == Some(n - 1) then (t1, false)
      else (IndexLine(t1, n - 1, lines[n - 1], faults), true)
  }

  function Prepare(t: Trail, faults: PrepareFaults): (Trail, bool) {
    if t.initialized then (t, true)
    else if faults.parentMissing then (t, false)
    else
      var t1 := t.(persistentIndex := !faults.indexDirFails);
      if t.file.None? then (t1.(initialized := true), true)
      else if faults.openFails then (t1, false)
      else
        var (t2, ok) := IndexLines(t1, t.file.value, |t.file.value|, faults);
        (if ok then t2.(initialized := true) else t2, ok)
  }

  function Find(records: seq<AuditRecord>, id: Id): Option<AuditRecord>
    decreases |records|
  {
    if records == [] then None
    else if records[0].id == id then Some(records[0])
    else Find(records[1..], id)
  }

  /** What the three tiers say about an id. */
  datatype Lookup = Unknown | Cached(record: AuditRecord) | Indexed(digest: Digest) | LookupFailed

  function Look(t: Trail, id: Id, faults: Faults): Lookup {
    var cached := Find(t.recent, id);
    if cached.Some? then Cached(cached.value)
    else if t.persistentIndex then
      if faults.indexReadFails then LookupFailed
      else if id in t.index then Indexed(t.index[id])
      else Unknown
    else if faults.scanFails then LookupFailed
    else
      var scanned := Find(History(t), id);
      if scanned.Some? then Cached(scanned.value) else Unknown
  }

  /** Appends an unknown record; everything after the write may still fail. */
  function Append(t: Trail, record: AuditRecord, faults: Faults): (Trail, bool) {
    if faults.writeFails then (t, false)
    else
      var t1 := t.(file := Some(Lines(t) + [Entry(record)]), recent := Remember(t.recent, record));
      if faults.syncFails then (t1, false)
      else if !t.persistentIndex then (t1, true)
      else if faults.indexWriteFails then (t1.(persistentIndex := false), true)
      else (t1.(index := t1.index[record.id := Digest(record)]), true)
  }

  function Record(t: Trail, record: AuditRecord, faults: Faults): (Trail, bool) {
    var (t1, ok) := Prepare(t, faults.prepare);
    if !ok || faults.appendOpenFails then (t1, false)
    else
      var t2 := t1.(file := Some(Lines(t1)));
      match Look(t2, record.id, faults)
      case LookupFailed => (t2, false)
      case Cached(existing) => (t2, existing == record && !faults.syncFails)
      case Indexed(digest) => (t2, digest == Digest(record) && !faults.syncFails)
      case Unknown => Append(t2, record, faults)
  }

  /** The process stops, between any two steps, and a new one opens the same files. */
  function Restart(t: Trail): Trail {
    t.(initialized := false, persistentIndex := false, recent := [])
  }

  // ---- the in-place form ----

  /** `AuditState` and the files it guards, with the methods of the trail. */
  class BridgeAuditTrail {
    var file: Option<seq<Line>>
    var index: map<Id, Digest>
    var initialized: bool
    var persistentIndex: bool
    var recent: seq<AuditRecord>

    constructor (file: Option<seq<Line>>, index: map<Id, Digest>)
      ensures View() == Trail(file, index, false, false, [])
    {
      this.file, this.index := file, index;
      initialized, persistentIndex, recent := false, false, [];
    }

    ghost function View(): Trail
      reads this
    {
      Trail(file, index, initialized, persistentIndex, recent)
    }

    method RememberRecord(record: AuditRecord)
      modifies this`recent
      ensures recent == Remember(old(recent), record)
    {
      recent := recent + [record];
      while |recent| > MAX_RECENT_AUDIT_RECORDS
        invariant Trimmed(recent) == Remember(old(recent), record)
        decreases |recent|
      {
        recent := recent[1..];
      }
    }

    method PrepareLocked(faults: PrepareFaults) returns (ok: bool)
      modifies this
      ensures (View(), ok) == Prepare(old(View()), faults)
    {
      if initialized {
        return true;
      }
      if faults.parentMissing {
        return false;
      }
      persistentIndex := !faults.indexDirFails;
      if file.None? {
        initialized := true;
        return true;
      }
      if faults.openFails {
        return false;
      }
      ghost var t1 := View();
      var lines := file.value;
      for i := 0 to |lines|
        invariant (View(), true) == IndexLines(t1, lines, i, faults)
        invariant file == old(file) && !initialized
        invariant IndexLines(t1, lines, |lines|, faults).1 ==> IndexLines(t1, lines, i, faults).1
      {
        if faults.lineFailsAt == Some(i) {
          StopsAt(t1, lines, i, |lines|, faults);
          return false;
        }
        var line := lines[i];
        if line.Entry? {
          if persistentIndex {
            if faults.indexWriteFailsAt == Some(i) {
              persistentIndex := false;
            } else {
              index := index[line.record.id := Digest(line.record)];
            }
          }
          RememberRecord(line.record);
        }
      }
      initialized := true;
      return true;
    }

    method FindRecordInHistory(id: Id, scanFails: bool) returns (ok: bool, found: Option<AuditRecord>)
      ensures ok == !scanFails
      ensures ok ==> found == Find(History(View()), id)
    {
      if scanFails {
        return false, None;
      }
      found := None;
      if file.None? {
        return true, None;
      }
      var lines := file.value;
      for i := 0 to |lines|
        invariant found == None == Find(Entries(lines[..i]), id)
      {
        assert lines[..i + 1][..i] == lines[..i];
        if lines[i].Entry? {
          FindAppend(Entries(lines[..i]), lines[i].record, id);
          if lines[i].record.id == id {
            FoundEarly(lines, i, id);
            return true, Some(lines[i].record);
          }
        }
      }
      assert lines[..|lines|] == lines;
      ok := true;
    }

    /** The window first, then the index while it is trusted, else a scan of the file. */
    method LookUp(id: Id, faults: Faults) returns (found: Lookup)
      ensures found == Look(View(), id, faults)
    {
      var cached := FindRecent(id);
      if cached.Some? {
        return Cached(cached.value);
      }
      if persistentIndex {
        if faults.indexReadFails {
          return LookupFailed;
        }
        return if id in index then Indexed(index[id]) else Unknown;
      }
      var scanOk, scanned := FindRecordInHistory(id, faults.scanFails);
      if !scanOk {
        return LookupFailed;
      }
      return if scanned.Some? then Cached(scanned.value) else Unknown;
    }

    method RecordDecision(record: AuditRecord, faults: Faults) returns (ok: bool)
      modifies this
      ensures (View(), ok) == Record(old(View()), record, faults)
    {
      var prepared := PrepareLocked(faults.prepare);
      if !prepared || faults.appendOpenFails {
        return false;
      }
      if file.None? {
        file := Some([]);
      }
      var found := LookUp(record.id, faults);
      match found
      case LookupFailed => return false;
      case Cached(existing) => return existing == record && !faults.syncFails;
      case Indexed(digest) => return digest == Digest(record) && !faults.syncFails;
      case Unknown =>
        if faults.writeFails {
          return false;
        }
        file := Some(file.value + [Entry(record)]);
        RememberRecord(record);
        if faults.syncFails {
          return false;
        }
        if persistentIndex {
          if faults.indexWriteFails {
            persistentIndex := false;
          } else {
            index := index[record.id := Digest(record)];
          }
        }
        return true;
    }

    /** Unlike the scan, reading back refuses a file with a malformed line. */
    method ReadAll(readFails: bool) returns (records: Option<seq<AuditRecord>>)
      ensures records == if file.Some? && (readFails || Malformed in file.value) then None else Some(History(View()))
    {
      if file.None? {
        return Some([]);
      }
      if readFails {
        return None;
      }
      var lines, found := file.value, [];
      for i := 0 to |lines|
        invariant found == Entries(lines[..i]) && Malformed !in lines[..i]
      {
        assert lines[..i + 1][..i] == lines[..i];
        if lines[i].Malformed? {
          return None;
        }
        if lines[i].Entry? {
          found := found + [lines[i].record];
        }
      }
      assert lines[..|lines|] == lines;
      return Some(found);
    }

    method FindRecent(id: Id) returns (found: Option<AuditRecord>)
      ensures found == Find(recent, id)
    {
      for i := 0 to |recent|
        invariant Find(recent, id) == Find(recent[i..], id)
      {
        if recent[i].id == id {
          return Some(recent[i]);
        }
      }
      return None;
    }
  }

  lemma {:induction false} StopsAt(t: Trail, lines: seq<Line>, i: nat, n: nat, faults: PrepareFaults)
    requires i < n <= |lines| && faults.lineFailsAt == Some(i)
    requires IndexLines(t, lines, i, faults).1
    ensures IndexLines(t, lines, n, faults) == (IndexLines(t, lines, i, faults).0, false)
    decreases n
  {
    if i < n - 1 {
      StopsAt(t, lines, i, n - 1, faults);
    }
  }

  lemma {:induction false} FindAppend(records: seq<AuditRecord>, record: AuditRecord, id: Id)
    ensures Find(records + [record], id) ==
            if Find(records, id).Some? then Find(records, id) else if record.id == id then Some(record) else None
    decreases |records|
  {
    if records != [] {
      assert (records + [record])[1..] == records[1..] + [record];
      FindAppend(records[1..], record, id);
    }
  }

  lemma {:induction false} FoundEarly(lines: seq<Line>, i: nat, id: Id)
    requires i < |lines| && lines[i].Entry? && lines[i].record.id == id
    requires Find(Entries(lines[..i]), id) == None
    ensures Find(Entries(lines), id) == Some(lines[i].record)
    decreases |lines|
  {
    var last := |lines| - 1;
    var init := lines[..last];
    if i == last {
      FindAppend(Entries(init), lines[i].record, id);
    } else {
      assert init[..i] == lines[..i];
      FoundEarly(init, i, id);
      if lines[last].Entry? {
        FindAppend(Entries(init), lines[last].record, id);
      }
    }
  }
}
