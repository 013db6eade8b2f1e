/** The rolling NDJSON audit sink and the meter wrapped around it. */
module RollingSink {

  /** One serialized event; the sink adds the newline. */
  type Line = string

  function Bytes(line: Line): nat {
    |line| + 1
  }

  function Size(file: seq<Line>): nat
    decreases |file|
  {
    if file == [] then 0 else Size(file[..|file| - 1]) + Bytes(file[|file| - 1])
  }

  function Concat(files: seq<seq<Line>>): seq<Line>
    decreases |files|
  {
    if files == [] then [] else Concat(files[..|files| - 1]) + files[|files| - 1]
  }

  /** Files in creation order; when `open`, the last of them is the current one. */
  datatype Sink = Sink(maxBytes: nat, files: seq<seq<Line>>, open: bool, currentBytes: nat, poisoned: bool)

  datatype Outcome = Written | IoError | PoisonError

  /** What the file system refuses during one write. */
  datatype Faults = Faults(openFails: bool, writeFails: bool, flushFails: bool)

  predicate NeedsNew(s: Sink, line: Line) {
    !s.open || s.files == [] || (s.maxBytes > 0 && s.currentBytes + Bytes(line) > s.maxBytes)
  }

  function OpenNew(s: Sink): Sink {
    s.(files := s.files + [[]], open := true, currentBytes := 0)
  }

  function AppendLine(files: seq<seq<Line>>, line: Line): seq<seq<Line>>
    requires files != []
  {
    files[|files| - 1 := files[|files| - 1] + [line]]
  }

  function Write(s: Sink, line: Line, f: Faults): (Sink, Outcome) {
    if s.poisoned then (s.(open := false, poisoned := false), PoisonError)
    else if NeedsNew(s, line) && f.openFails then (s, IoError)
    else
      var s1 := if NeedsNew(s, line) then OpenNew(s) else s;
      if f.writeFails then (s1, IoError)
      else
        var s2 := s1.(files := AppendLine(s1.files, line));
        if f.flushFails then (s2, IoError)
        else (s2.(currentBytes := s2.currentBytes + Bytes(line)), Written)
  }

  class RollingFileSink {
    const maxBytesPerFile: nat
    var files: seq<seq<Line>>
    var open: bool
    var currentBytes: nat
    var poisoned: bool

    constructor (maxBytesPerFile: nat)
      ensures View() == Sink(maxBytesPerFile, [], false, 0, false)
    {
      this.maxBytesPerFile := maxBytesPerFile;
      files, open, currentBytes, poisoned := [], false, 0, false;
    }

    ghost function View(): Sink
      reads this
    {
      Sink(maxBytesPerFile, files, open, currentBytes, poisoned)
    }

    method WriteLine(line: Line, f: Faults) returns (outcome: Outcome)
      modifies this
      ensures (View(), outcome) == Write(old(View()), line, f)
    {
      if poisoned {
        open, poisoned := false, false;
        return PoisonError;
      }
      var needsNew := !open || files == [] || (maxBytesPerFile > 0 && currentBytes + Bytes(line) > maxBytesPerFile);
      if needsNew {
        if f.openFails {
          return IoError;
        }
        files, open, currentBytes := files + [[]], true, 0;
      }
      if f.writeFails {
        return IoError;
      }
      files := AppendLine(files, line);
      if f.flushFails {
        return IoError;
      }
      currentBytes := currentBytes + Bytes(line);
      return Written;
    }
  }

  datatype Meter = Meter(events: nat, bytes: nat, errors: nat)

  function Count(m: Meter, line: Line, outcome: Outcome): Meter {
    if outcome.Written? then Meter(m.events + 1, m.bytes + |line| + 1, m.errors)
    else m.(errors := m.errors + 1)
  }

  class MeteredSink {
    const inner: RollingFileSink
    var eventsWritten: nat
    var bytesWritten: nat
    var errors: nat

    constructor (inner: RollingFileSink)
      ensures this.inner == inner && View() == Meter(0, 0, 0)
    {
      this.inner, eventsWritten, bytesWritten, errors := inner, 0, 0, 0;
    }

    ghost function View(): Meter
      reads this
    {
      Meter(eventsWritten, bytesWritten, errors)
    }

    method WriteLine(line: Line, f: Faults) returns (outcome: Outcome)
      modifies this, inner
      ensures (inner.View(), outcome) == Write(old(inner.View()), line, f)
      ensures View() == Count(old(View()), line, outcome)
    {
      outcome := inner.WriteLine(line, f);
      if outcome.Written? {
        eventsWritten := eventsWritten + 1;
        bytesWritten := bytesWritten + |line| + 1;
      } else {
        errors := errors + 1;
      }
    }
  }

  // ---- whole runs ----

  datatype Op = WriteOp(line: Line, faults: Faults) | Panic

  /**
    A run's bookkeeping: the lines accepted, the lines that reached a file, for each file the line
    it was opened for, and the files opened first after a poison reset.
   */
  datatype World = World(
    sink: Sink,
    meter: Meter,
    accepted: seq<Line>,
    landed: seq<Line>,
    openedFor: seq<Line>,
    resets: set<nat>
  )

  function Start(maxBytes: nat): World {
    World(Sink(maxBytes, [], false, 0, false), Meter(0, 0, 0), [], [], [], {})
  }

  /** Whether the write gets as far as the file. */
  predicate Lands(s: Sink, line: Line, f: Faults) {
    !s.poisoned && !(NeedsNew(s, line) && f.openFails) && !f.writeFails
  }

  function Step(w: World, op: Op): World {
    match op
    case Panic => w.(sink := w.sink.(poisoned := true))
    case WriteOp(line, f) =>
      var (sink, outcome) := Write(w.sink, line, f);
      World(sink,
            Count(w.meter, line, outcome),
            if outcome.Written? then w.accepted + [line] else w.accepted,
            if Lands(w.sink, line, f) then w.landed + [line] else w.landed,
            if |sink.files| > |w.sink.files| then w.openedFor + [line] else w.openedFor,
            if outcome.PoisonError? then w.resets + {|sink.files|} else w.resets)
  }

  function Run(w: World, ops: seq<Op>): World
    decreases |ops|
  {
    if ops == [] then w else Run(Step(w, ops[0]), ops[1..])
  }

  /** `a` is `b` with some elements left out. */
  predicate Subsequence(a: seq<Line>, b: seq<Line>)
    decreases |b|
  {
    if b == [] then a == []
    else
      || Subsequence(a, b[..|b| - 1])
      || (a != [] && a[|a| - 1] == b[|b| - 1] && Subsequence(a[..|a| - 1], b[..|b| - 1]))
  }

  ghost predicate LedgerOk(w: World) {
    && Concat(w.sink.files) == w.landed
    && Subsequence(w.accepted, w.landed)
    && w.meter.events == |w.accepted| && w.meter.bytes == Size(w.accepted)
    && |w.openedFor| == |w.sink.files|
  }

  lemma ConcatAppendLine(files: seq<seq<Line>>, line: Line)
    requires files != []
    ensures Concat(AppendLine(files, line)) == Concat(files) + [line]
  {
    var files' := AppendLine(files, line);
    assert files'[..|files'| - 1] == files[..|files| - 1];
  }

  lemma ConcatOpen(files: seq<seq<Line>>)
    ensures Concat(files + [[]]) == Concat(files)
  {
    assert (files + [[]])[..|files|] == files;
  }

  lemma SizeAppend(file: seq<Line>, line: Line)
    ensures Size(file + [line]) == Size(file) + Bytes(line)
  {
    assert (file + [line])[..|file|] == file;
  }

  lemma SubsequenceGrows(a: seq<Line>, b: seq<Line>, x: Line)
    requires Subsequence(a, b)
    ensures Subsequence(a + [x], b + [x]) && Subsequence(a, b + [x])
  {
    assert (b + [x])[..|b|] == b && (a + [x])[..|a|] == a;
  }

  /** A write adds its line to the end of the files exactly when it lands. */
  lemma WriteExtends(s: Sink, line: Line, f: Faults)
    ensures Concat(Write(s, line, f).0.files) == Concat(s.files) + if Lands(s, line, f) then [line] else []
  {
    var s1 := if NeedsNew(s, line) then OpenNew(s) else s;
    ConcatOpen(s.files);
    assert Concat(s1.files) == Concat(s.files);
    if Lands(s, line, f) {
      assert Write(s, line, f).0.files == AppendLine(s1.files, line);
      ConcatAppendLine(s1.files, line);
    } else {
      assert Write(s, line, f).0.files in {s.files, s1.files};
    }
  }

  lemma WriteKeepsLedger(w: World, line: Line, f: Faults)
    requires LedgerOk(w)
    ensures LedgerOk(Step(w, WriteOp(line, f)))
  {
    WriteExtends(w.sink, line, f);
    var w' := Step(w, WriteOp(line, f));
    assert |w'.openedFor| == |w'.sink.files|;
    if Write(w.sink, line, f).1.Written? {
      SizeAppend(w.accepted, line);
      SubsequenceGrows(w.accepted, w.landed, line);
    } else if Lands(w.sink, line, f) {
      SubsequenceGrows(w.accepted, w.landed, line);
    } else {
      assert w.landed + [] == w.landed;
    }
  }

  /**
    Whatever fails, the files in creation order concatenate to exactly the lines that reached a
    file, the accepted lines are among them in order, and the meter counts the accepted ones.
   */
  lemma {:induction false} NothingIsLostOrReordered(w: World, ops: seq<Op>)
    requires LedgerOk(w)
    ensures LedgerOk(Run(w, ops))
    decreases |ops|
  {
    if ops != [] {
      if ops[0].WriteOp? {
        WriteKeepsLedger(w, ops[0].line, ops[0].faults);
      }
      NothingIsLostOrReordered(Step(w, ops[0]), ops[1..]);
    }
  }

  // ---- which writes are accepted ----

  /** The line does not fit behind what the current file was counted to hold, or there is no current file. */
  predicate NeedsFile(s: Sink, line: Line) {
    !s.open || s.files == [] || (s.maxBytes > 0 && s.currentBytes + |line| + 1 > s.maxBytes)
  }

  /** The file is a last line behind some others. */
  predicate EndsWith(files: seq<seq<Line>>, line: Line) {
    files != [] && var file := files[|files| - 1]; file != [] && file[|file| - 1] == line
  }

  /** A write is accepted exactly when nothing on its way fails, and an accepted line is the last of the last file. */
  lemma WriteIsExact(s: Sink, line: Line, f: Faults)
    ensures var (s', outcome) := Write(s, line, f);
            var opens := NeedsFile(s, line);
            var blocked := s.poisoned || (opens && f.openFails);
            && (outcome.Written? <==> !blocked && !f.writeFails && !f.flushFails)
            && (outcome.PoisonError? <==> s.poisoned)
            && !s'.poisoned && s'.maxBytes == s.maxBytes
            && (blocked ==> s'.files == s.files && (s'.open <==> s.open && !s.poisoned))
            && (!blocked ==> s'.open && |s'.files| == if opens then |s.files| + 1 else |s.files|)
            && (!blocked ==> s'.currentBytes == (if opens then 0 else s.currentBytes) +
                                                (if outcome.Written? then |line| + 1 else 0))
            && (outcome.Written? ==> EndsWith(s'.files, line))
  {
  }

  /** A panic costs one line: the next write is refused, and the sink then works again, with a new file. */
  lemma PanicCostsOneLine(w: World, lost: Line, f: Faults, next: Line)
    ensures var end := Run(w, [Panic, WriteOp(lost, f), WriteOp(next, Faults(false, false, false))]);
            && end.sink.files == w.sink.files + [[next]]
            && end.accepted == w.accepted + [next] && end.landed == w.landed + [next]
            && end.meter.events == w.meter.events + 1 && end.meter.errors == w.meter.errors + 1
            && !end.sink.poisoned
  {
    var second, third := WriteOp(lost, f), WriteOp(next, Faults(false, false, false));
    var w1 := Step(w, Panic);
    var w2 := Step(w1, second);
    RunOf(w, Panic, [second, third]);
    RunOf(w1, second, [third]);
    RunOf(w2, third, []);
    assert w2.sink == w.sink.(open := false, poisoned := false);
    assert [] + [next] == [next];
    assert AppendLine(w.sink.files + [[]], next) == w.sink.files + [[next]];
  }

  lemma RunOf(w: World, op: Op, rest: seq<Op>)
    ensures Run(w, [op] + rest) == Run(Step(w, op), rest)
  {
    assert ([op] + rest)[1..] == rest;
  }

  function Writes(ops: seq<Op>): nat
    decreases |ops|
  {
    if ops == [] then 0 else (if ops[0].WriteOp? then 1 else 0) + Writes(ops[1..])
  }

  /** Over every run each write is counted once, as an event or as an error. */
  lemma {:induction false} EveryWriteIsCounted(w: World, ops: seq<Op>)
    ensures var m, m' := w.meter, Run(w, ops).meter;
            m'.events + m'.errors == m.events + m.errors + Writes(ops)
    decreases |ops|
  {
    if ops != [] {
      EveryWriteIsCounted(Step(w, ops[0]), ops[1..]);
    }
  }

  /** A file of two or more lines stays within the limit. */
  ghost predicate Fits(file: seq<Line>, maxBytes: nat) {
    maxBytes > 0 && |file| > 1 ==> Size(file) <= maxBytes
  }

  ghost predicate AllFit(files: seq<seq<Line>>, maxBytes: nat) {
    forall i :: 0 <= i < |files| ==> Fits(files[i], maxBytes)
  }

  /** Each file but the first was opened for a line the file before it could not take, or after a reset. */
  ghost predicate RotatedWhenFull(files: seq<seq<Line>>, openedFor: seq<Line>, resets: set<nat>, maxBytes: nat) {
    && |openedFor| == |files|
    && (forall j :: 1 <= j < |openedFor| && j !in resets ==>
          maxBytes > 0 && Size(files[j - 1]) + Bytes(openedFor[j]) > maxBytes)
  }

  ghost predicate SizesOk(w: World) {
    && AllFit(w.sink.files, w.sink.maxBytes)
    && RotatedWhenFull(w.sink.files, w.openedFor, w.resets, w.sink.maxBytes)
    && (w.sink.open ==> w.sink.files != [] && w.sink.currentBytes == Size(w.sink.files[|w.sink.files| - 1]))
    && (!w.sink.open ==> w.sink.files == [] || |w.sink.files| in w.resets)
  }

  lemma OpenKeepsSizes(w: World, line: Line)
    requires SizesOk(w) && NeedsNew(w.sink, line)
    ensures SizesOk(w.(sink := OpenNew(w.sink), openedFor := w.openedFor + [line]))
  {
  }

  lemma AppendKeepsRotation(files: seq<seq<Line>>, openedFor: seq<Line>, resets: set<nat>, maxBytes: nat, line: Line)
    requires files != [] && RotatedWhenFull(files, openedFor, resets, maxBytes)
    ensures RotatedWhenFull(AppendLine(files, line), openedFor, resets, maxBytes)
  {
    var files' := AppendLine(files, line);
    forall j | 1 <= j < |openedFor| && j !in resets
      ensures maxBytes > 0 && Size(files'[j - 1]) + Bytes(openedFor[j]) > maxBytes
    {
      assert files'[j - 1] == files[j - 1];
    }
  }

  function Counted(s: Sink, line: Line): Sink
    requires s.files != []
  {
    s.(files := AppendLine(s.files, line), currentBytes := s.currentBytes + Bytes(line))
  }

  lemma AppendKeepsSizes(w: World, line: Line)
    requires SizesOk(w) && w.sink.open
    requires w.sink.maxBytes > 0 && w.sink.currentBytes + Bytes(line) > w.sink.maxBytes ==>
               w.sink.files[|w.sink.files| - 1] == []
    ensures SizesOk(w.(sink := Counted(w.sink, line)))
  {
    AppendKeepsRotation(w.sink.files, w.openedFor, w.resets, w.sink.maxBytes, line);
    var last := w.sink.files[|w.sink.files| - 1];
    SizeAppend(last, line);
    assert Fits(last + [line], w.sink.maxBytes);
  }

  lemma WriteKeepsSizes(w: World, line: Line, f: Faults)
    requires SizesOk(w) && (f.flushFails ==> !Lands(w.sink, line, f))
    ensures SizesOk(Step(w, WriteOp(line, f)))
  {
    var s := w.sink;
    var w' := Step(w, WriteOp(line, f));
    if !s.poisoned && !(NeedsNew(s, line) && f.openFails) {
      var w1 := if NeedsNew(s, line) then w.(sink := OpenNew(s), openedFor := w.openedFor + [line]) else w;
      if NeedsNew(s, line) {
        OpenKeepsSizes(w, line);
      }
      assert w'.openedFor == w1.openedFor && w'.resets == w1.resets;
      if !f.writeFails {
        AppendKeepsSizes(w1, line);
        assert w'.sink == Counted(w1.sink, line);
      } else {
        assert w'.sink == w1.sink;
      }
    }
  }

  /** No line lands and then fails to flush. */
  predicate Flushes(w: World, ops: seq<Op>)
    decreases |ops|
  {
    ops == [] ||
    ((ops[0].WriteOp? && ops[0].faults.flushFails ==> !Lands(w.sink, ops[0].line, ops[0].faults)) &&
     Flushes(Step(w, ops[0]), ops[1..]))
  }

  lemma {:induction false} SizesHold(w: World, ops: seq<Op>)
    requires SizesOk(w) && Flushes(w, ops)
    ensures SizesOk(Run(w, ops))
    ensures w.accepted == w.landed ==> Run(w, ops).accepted == Run(w, ops).landed
    ensures Run(w, ops).sink.maxBytes == w.sink.maxBytes
    decreases |ops|
  {
    if ops != [] {
      if ops[0].WriteOp? {
        WriteKeepsSizes(w, ops[0].line, ops[0].faults);
      }
      SizesHold(Step(w, ops[0]), ops[1..]);
    }
  }

  lemma {:induction false} SizeOfConcat(files: seq<seq<Line>>)
    ensures Size(Concat(files)) == TotalSize(files)
    decreases |files|
  {
    if files != [] {
      SizeOfConcat(files[..|files| - 1]);
      SizeAdds(Concat(files[..|files| - 1]), files[|files| - 1]);
    }
  }

  function TotalSize(files: seq<seq<Line>>): nat
    decreases |files|
  {
    if files == [] then 0 else TotalSize(files[..|files| - 1]) + Size(files[|files| - 1])
  }

  lemma {:induction false} SizeAdds(a: seq<Line>, b: seq<Line>)
    ensures Size(a + b) == Size(a) + Size(b)
    decreases |b|
  {
    if b == [] {
      assert a + b == a;
    } else {
      assert (a + b)[..|a + b| - 1] == a + b[..|b| - 1];
      SizeAdds(a, b[..|b| - 1]);
    }
  }

  /**
    Over any run in which every landed line is flushed (opening, writing and poisoning may fail):
    the files are exactly the accepted lines in order, the metered bytes are the sum of the file
    sizes, a file of two or more lines fits the limit, and no rotation came early except right
    after a poison reset.
   */
  lemma RotationIsExact(maxBytes: nat, ops: seq<Op>)
    requires Flushes(Start(maxBytes), ops)
    ensures var w := Run(Start(maxBytes), ops);
            && Concat(w.sink.files) == w.accepted
            && w.meter.events == |w.accepted| && w.meter.bytes == TotalSize(w.sink.files)
            && w.sink.maxBytes == maxBytes
            && AllFit(w.sink.files, maxBytes)
            && RotatedWhenFull(w.sink.files, w.openedFor, w.resets, maxBytes)
  {
    NothingIsLostOrReordered(Start(maxBytes), ops);
    SizesHold(Start(maxBytes), ops);
    SizeOfConcat(Run(Start(maxBytes), ops).sink.files);
  }

  lemma MeterStep(w: World, op: Op)
    requires Size(w.accepted) <= Size(w.landed)
    ensures var (w', behind) := (Step(w, op), op.WriteOp? && op.faults.flushFails && Lands(w.sink, op.line, op.faults));
            && Size(w'.accepted) <= Size(w'.landed)
            && (Size(w'.accepted) == Size(w'.landed) <==> Size(w.accepted) == Size(w.landed) && !behind)
  {
    if op.WriteOp? {
      SizeAppend(w.accepted, op.line);
      SizeAppend(w.landed, op.line);
    }
  }

  /** Once a landed line went unaccepted the meter stays behind the files. */
  lemma {:induction false} MeterFollowsFlushes(w: World, ops: seq<Op>)
    requires LedgerOk(w) && Size(w.accepted) <= Size(w.landed)
    ensures Size(Run(w, ops).accepted) <= Size(Run(w, ops).landed)
    ensures Size(Run(w, ops).accepted) == Size(Run(w, ops).landed) <==>
              Size(w.accepted) == Size(w.landed) && Flushes(w, ops)
    decreases |ops|
  {
    if ops != [] {
      if ops[0].WriteOp? {
        WriteKeepsLedger(w, ops[0].line, ops[0].faults);
      }
      MeterStep(w, ops[0]);
      MeterFollowsFlushes(Step(w, ops[0]), ops[1..]);
    }
  }

  /**
    The flush premise is exact: over any run the files hold the accepted lines, and the meter shows
    their size, if and only if no line that reached a file failed to flush.
   */
  lemma FilesMatchTheMeterIffFlushed(maxBytes: nat, ops: seq<Op>)
    ensures var w := Run(Start(maxBytes), ops);
            && (Concat(w.sink.files) == w.accepted <==> Flushes(Start(maxBytes), ops))
            && (w.meter.bytes == TotalSize(w.sink.files) <==> Flushes(Start(maxBytes), ops))
  {
    var w := Run(Start(maxBytes), ops);
    NothingIsLostOrReordered(Start(maxBytes), ops);
    MeterFollowsFlushes(Start(maxBytes), ops);
    SizeOfConcat(w.sink.files);
    if Flushes(Start(maxBytes), ops) {
      SizesHold(Start(maxBytes), ops);
    }
  }

  // ---- where the size bound fails ----

  function NoFaults(): Faults {
    Faults(false, false, false)
  }

  /** A line of `n` bytes, newline included. */
  function Filling(n: nat): (line: Line)
    requires n > 0
    ensures Bytes(line) == n
  {
    seq(n - 1, _ => 'x')
  }

  lemma UnflushedLanding(w: World, line: Line, f: Faults)
    requires SizesOk(w) && w.sink.maxBytes > 0 && Lands(w.sink, line, f) && f.flushFails
    ensures var s' := Step(w, WriteOp(line, f)).sink;
            && s'.maxBytes == w.sink.maxBytes && s'.open && !s'.poisoned && s'.files != []
            && s'.currentBytes < s'.maxBytes
            && var last := s'.files[|s'.files| - 1];
               |last| > 0 && Size(last) == s'.currentBytes + Bytes(line)
  {
    var s1 := if NeedsNew(w.sink, line) then OpenNew(w.sink) else w.sink;
    SizeAppend(s1.files[|s1.files| - 1], line);
  }

  /**
    A line that landed but was reported as failed is not counted: from any sink with a limit and a
    right byte counter, the line that would just fill what the counter has left overfills the file.
   */
  lemma UnflushedLineOverfillsFile(w: World, line: Line, f: Faults)
    requires SizesOk(w) && w.sink.maxBytes > 0 && Lands(w.sink, line, f) && f.flushFails
    ensures var w' := Step(w, WriteOp(line, f));
            && w'.sink.currentBytes < w.sink.maxBytes
            && !AllFit(Step(w', WriteOp(Filling(w.sink.maxBytes - w'.sink.currentBytes), NoFaults())).sink.files,
                       w.sink.maxBytes)
  {
    UnflushedLanding(w, line, f);
    var s := Step(w, WriteOp(line, f)).sink;
    var next := Filling(s.maxBytes - s.currentBytes);
    var last := s.files[|s.files| - 1];
    SizeAppend(last, next);
    var files := Write(s, next, NoFaults()).0.files;
    assert files == AppendLine(s.files, next);
    assert !Fits(files[|files| - 1], s.maxBytes);
  }

  lemma {:induction false} RunAppend(w: World, first: seq<Op>, second: seq<Op>)
    ensures Run(w, first + second) == Run(Run(w, first), second)
    decreases |first|
  {
    if first == [] {
      assert first + second == second;
    } else {
      assert (first + second)[1..] == first[1..] + second;
      RunAppend(Step(w, first[0]), first[1..], second);
    }
  }

  lemma RunOne(w: World, first: seq<Op>, op: Op)
    ensures Run(w, first + [op]) == Step(Run(w, first), op)
  {
    RunAppend(w, first, [op]);
    assert [op][1..] == [];
  }

  lemma {:induction false} FlushesAppend(w: World, first: seq<Op>, second: seq<Op>)
    ensures Flushes(w, first + second) <==> Flushes(w, first) && Flushes(Run(w, first), second)
    decreases |first|
  {
    if first == [] {
      assert first + second == second;
    } else {
      assert (first + second)[1..] == first[1..] + second;
      FlushesAppend(Step(w, first[0]), first[1..], second);
    }
  }

  predicate IsUnflushed(w: World, op: Op) {
    op.WriteOp? && op.faults.flushFails && Lands(w.sink, op.line, op.faults)
  }

  lemma {:induction false} FirstUnflushed(w: World, ops: seq<Op>) returns (n: nat)
    requires !Flushes(w, ops)
    ensures n < |ops| && Flushes(w, ops[..n]) && IsUnflushed(Run(w, ops[..n]), ops[n])
    decreases |ops|
  {
    if IsUnflushed(w, ops[0]) {
      n := 0;
    } else {
      var m := FirstUnflushed(Step(w, ops[0]), ops[1..]);
      n := m + 1;
      assert ops[..n][1..] == ops[1..][..m] && ops[..n][0] == ops[0];
    }
  }

  /** Stopped at `n` and given one more line, the run keeps every file within the limit. */
  ghost predicate NextLineFits(maxBytes: nat, ops: seq<Op>, n: nat, line: Line)
    requires n <= |ops|
  {
    AllFit(Run(Start(maxBytes), ops[..n] + [WriteOp(line, NoFaults())]).sink.files, maxBytes)
  }

  lemma FlushedRunFits(maxBytes: nat, ops: seq<Op>, n: nat, line: Line)
    requires Flushes(Start(maxBytes), ops) && n <= |ops|
    ensures NextLineFits(maxBytes, ops, n, line)
  {
    var next := [WriteOp(line, NoFaults())];
    assert ops == ops[..n] + ops[n..];
    FlushesAppend(Start(maxBytes), ops[..n], ops[n..]);
    FlushesAppend(Start(maxBytes), ops[..n], next);
    assert next[1..] == [];
    RotationIsExact(maxBytes, ops[..n] + next);
  }

  lemma UnflushedOverfills(w: World, op: Op) returns (line: Line)
    requires SizesOk(w) && w.sink.maxBytes > 0 && IsUnflushed(w, op)
    ensures !AllFit(Step(Step(w, op), WriteOp(line, NoFaults())).sink.files, w.sink.maxBytes)
  {
    UnflushedLineOverfillsFile(w, op.line, op.faults);
    line := Filling(w.sink.maxBytes - Step(w, op).sink.currentBytes);
  }

  lemma TwoMore(w: World, ops: seq<Op>, m: nat, next: Op)
    requires m < |ops|
    ensures Run(w, ops[..m + 1] + [next]) == Step(Step(Run(w, ops[..m]), ops[m]), next)
  {
    assert ops[..m + 1] == ops[..m] + [ops[m]];
    RunOne(w, ops[..m], ops[m]);
    RunOne(w, ops[..m + 1], next);
  }

  lemma UnflushedRunOverfills(maxBytes: nat, ops: seq<Op>) returns (n: nat, line: Line)
    requires maxBytes > 0 && !Flushes(Start(maxBytes), ops)
    ensures n <= |ops| && !NextLineFits(maxBytes, ops, n, line)
  {
    var m := FirstUnflushed(Start(maxBytes), ops);
    SizesHold(Start(maxBytes), ops[..m]);
    line := UnflushedOverfills(Run(Start(maxBytes), ops[..m]), ops[m]);
    n := m + 1;
    TwoMore(Start(maxBytes), ops, m, WriteOp(line, NoFaults()));
  }

  /**
    The exact condition of the size bound: a run under a limit, stopped anywhere and given any one
    more line, keeps it if and only if no line of the run landed without being flushed.
   */
  lemma SizeBoundHoldsIffFlushed(maxBytes: nat, ops: seq<Op>)
    requires maxBytes > 0
    ensures Flushes(Start(maxBytes), ops) <==>
              forall n: nat, line: Line :: n <= |ops| ==> NextLineFits(maxBytes, ops, n, line)
  {
    if Flushes(Start(maxBytes), ops) {
      forall n: nat, line: Line | n <= |ops|
        ensures NextLineFits(maxBytes, ops, n, line)
      {
        FlushedRunFits(maxBytes, ops, n, line);
      }
    } else {
      var n, line := UnflushedRunOverfills(maxBytes, ops);
    }
  }
}
