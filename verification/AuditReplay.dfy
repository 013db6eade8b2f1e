/** The replay engine: audit events folded into a report, with the state document rebuilt on the way. */
module AuditReplay {
  import opened Options
  import opened Sequences
  import opened JsonPointer
  import opened JsonPatch
  import opened PatchTheorems
  import opened Strings

  /** Parsed events, members already defaulted as the engine reads them. */
  datatype Event =
    | Snapshot(stateHash: string, timestamp: int, payload: Json)
    | Patch(stateHash: string, timestamp: int, ops: seq<Op>)
    | ToolCall(toolName: string, timestamp: int, args: Json)
    | PolicyDecision(ruleId: string, action: string, decision: string, timestamp: int)
    | HitlEvent(eventType: string, timestamp: int)
    | Other

  datatype ChainEntry = ChainEntry(stateHash: string, timestamp: int, isSnapshot: bool)

  datatype Report = Report(
    totalEvents: nat,
    hasRedactedContent: bool,
    stateChain: seq<ChainEntry>,
    toolCalls: seq<(string, int, bool)>,
    policyDecisions: seq<Event>,
    hitlEvents: seq<Event>
  )

  predicate RedactedText(s: string) {
    Contains(s, "***") || Contains(s, "****-****-****-")
  }

  predicate ContainsRedaction(value: Json)
    decreases value
  {
    match value
    case Str(s) => RedactedText(s)
    case Arr(items) => exists i :: 0 <= i < |items| && ContainsRedaction(items[i])
    case Obj(members) => exists k <- members :: RedactedText(k) || ContainsRedaction(members[k])
    case _ => false
  }

  /** The variables of the replay loop; a JSON null document differs from no document. */
  datatype Replay = Replay(report: Report, haveSnapshot: bool, current: Json)

  function Start(events: nat): Replay {
    Replay(Report(events, false, [], [], [], []), false, Null)
  }

  function Chained(r: Report, entry: ChainEntry, redacted: bool): Report {
    r.(stateChain := r.stateChain + [entry], hasRedactedContent := r.hasRedactedContent || redacted)
  }

  function Take(st: Replay, e: Event): Option<Replay> {
    match e
    case Snapshot(hash, time, payload) =>
      Some(Replay(Chained(st.report, ChainEntry(hash, time, true), ContainsRedaction(payload)), true, payload))
    case Patch(hash, time, ops) =>
      if !st.haveSnapshot then None
      else
        var next := Apply(st.current, ops);
        if next.None? then None
        else Some(st.(report := Chained(st.report, ChainEntry(hash, time, false), false), current := next.value))
    case ToolCall(name, time, args) =>
      var redacted := ContainsRedaction(args);
      Some(st.(report := st.report.(toolCalls := st.report.toolCalls + [(name, time, redacted)],
                                    hasRedactedContent := st.report.hasRedactedContent || redacted)))
    case PolicyDecision(_, _, _, _) =>
      Some(st.(report := st.report.(policyDecisions := st.report.policyDecisions + [e])))
    case HitlEvent(_, _) => Some(st.(report := st.report.(hitlEvents := st.report.hitlEvents + [e])))
    case Other => Some(st)
  }

  function TakeAll(st: Replay, events: seq<Event>): Option<Replay>
    decreases |events|
  {
    if events == [] then Some(st)
    else
      var next := Take(st, events[0]);
      if next.None? then None else TakeAll(next.value, events[1..])
  }

  method ReplayEvents(events: seq<Event>) returns (report: Option<Report>)
    ensures var end := TakeAll(Start(|events|), events);
            report == if end.None? then None else Some(end.value.report)
  {
    var r := Report(|events|, false, [], [], [], []);
    var haveSnapshot, current := false, Null;
    for i := 0 to |events|
      invariant TakeAll(Start(|events|), events) == TakeAll(Replay(r, haveSnapshot, current), events[i..])
    {
      assert events[i..][1..] == events[i + 1..];
      match events[i] {
        case Snapshot(hash, time, payload) =>
          current, haveSnapshot := payload, true;
          r := r.(stateChain := r.stateChain + [ChainEntry(hash, time, true)]);
          if ContainsRedaction(payload) {
            r := r.(hasRedactedContent := true);
          }
        case Patch(hash, time, ops) =>
          if !haveSnapshot {
            return None;
          }
          var next := ApplyJsonPatch(current, ops);
          if next.None? {
            return None;
          }
          current := next.value;
          r := r.(stateChain := r.stateChain + [ChainEntry(hash, time, false)]);
        case ToolCall(name, time, args) =>
          var redacted := ContainsRedaction(args);
          if redacted {
            r := r.(hasRedactedContent := true);
          }
          r := r.(toolCalls := r.toolCalls + [(name, time, redacted)]);
        case PolicyDecision(_, _, _, _) =>
          r := r.(policyDecisions := r.policyDecisions + [events[i]]);
        case HitlEvent(_, _) =>
          r := r.(hitlEvents := r.hitlEvents + [events[i]]);
        case Other =>
      }
    }
    return Some(r);
  }

  // ---- what a replay establishes ----

  lemma {:induction false} TakeAllAppend(st: Replay, first: seq<Event>, second: seq<Event>)
    ensures TakeAll(st, first + second) ==
            if TakeAll(st, first).None? then None else TakeAll(TakeAll(st, first).value, second)
    decreases |first|
  {
    if first == [] {
      assert first + second == second;
    } else {
      assert (first + second)[1..] == first[1..] + second;
      if Take(st, first[0]).Some? {
        TakeAllAppend(Take(st, first[0]).value, first[1..], second);
      }
    }
  }

  /** All patch operations of the events, in order. */
  function PatchesOf(events: seq<Event>): seq<Op>
    decreases |events|
  {
    if events == [] then []
    else OpsOf(events[0]) + PatchesOf(events[1..])
  }

  function OpsOf(e: Event): seq<Op> {
    if e.Patch? then e.ops else []
  }

  lemma TakeApplies(st: Replay, e: Event)
    requires st.haveSnapshot && !e.Snapshot?
    ensures Take(st, e).Some? <==> Apply(st.current, OpsOf(e)).Some?
    ensures Take(st, e).Some? ==>
              Take(st, e).value.haveSnapshot && Some(Take(st, e).value.current) == Apply(st.current, OpsOf(e))
  {
  }

  /** Without another snapshot the events apply their patches, one after the other, as one patch. */
  lemma {:induction false} PatchesCompose(st: Replay, events: seq<Event>)
    requires st.haveSnapshot
    requires forall i :: 0 <= i < |events| ==> !events[i].Snapshot?
    ensures TakeAll(st, events).Some? <==> Apply(st.current, PatchesOf(events)).Some?
    ensures TakeAll(st, events).Some? ==>
              Some(TakeAll(st, events).value.current) == Apply(st.current, PatchesOf(events))
    decreases |events|
  {
    if events != [] {
      ApplyAppend(st.current, OpsOf(events[0]), PatchesOf(events[1..]));
      TakeApplies(st, events[0]);
      if Take(st, events[0]).Some? {
        PatchesCompose(Take(st, events[0]).value, events[1..]);
      }
    }
  }

  /**
    The document depends on the last snapshot and the patches after it alone, and the replay fails
    after it exactly when those patches, taken as one, do not apply to that snapshot.
   */
  lemma DocumentFollowsLastSnapshot(st: Replay, before: seq<Event>, snapshot: Event, after: seq<Event>)
    requires snapshot.Snapshot? && forall i :: 0 <= i < |after| ==> !after[i].Snapshot?
    requires TakeAll(st, before).Some?
    ensures var end := TakeAll(st, before + [snapshot] + after);
            && (end.Some? <==> Apply(snapshot.payload, PatchesOf(after)).Some?)
            && (end.Some? ==> Some(end.value.current) == Apply(snapshot.payload, PatchesOf(after)))
  {
    TakeAllAppend(st, before + [snapshot], after);
    TakeAllAppend(st, before, [snapshot]);
    var mid := Take(TakeAll(st, before).value, snapshot).value;
    assert [snapshot][1..] == [];
    assert TakeAll(TakeAll(st, before).value, [snapshot]) == Some(mid);
    PatchesCompose(mid, after);
  }

  function ChainOf(events: seq<Event>): seq<ChainEntry>
    decreases |events|
  {
    if events == [] then []
    else EntriesOf(events[0]) + ChainOf(events[1..])
  }

  function EntriesOf(e: Event): seq<ChainEntry> {
    if e.Snapshot? || e.Patch? then [ChainEntry(e.stateHash, e.timestamp, e.Snapshot?)] else []
  }

  lemma TakeChains(st: Replay, e: Event)
    requires Take(st, e).Some?
    ensures Take(st, e).value.report.stateChain == st.report.stateChain + EntriesOf(e)
  {
  }

  predicate ShowsRedaction(e: Event) {
    (e.Snapshot? && ContainsRedaction(e.payload)) || (e.ToolCall? && ContainsRedaction(e.args))
  }

  /** A completed report's chain lists every snapshot and every applied patch, in event order. */
  lemma {:induction false} ChainListsEveryState(st: Replay, events: seq<Event>)
    requires TakeAll(st, events).Some?
    ensures TakeAll(st, events).value.report.stateChain == st.report.stateChain + ChainOf(events)
    decreases |events|
  {
    if events != [] {
      TakeChains(st, events[0]);
      ChainListsEveryState(Take(st, events[0]).value, events[1..]);
      Associates(st.report.stateChain, EntriesOf(events[0]), ChainOf(events[1..]));
    }
  }

  /** A completed report is flagged exactly when a snapshot or a tool call carries redacted text. */
  lemma {:induction false} RedactionIsFlagged(st: Replay, events: seq<Event>)
    requires TakeAll(st, events).Some?
    ensures TakeAll(st, events).value.report.hasRedactedContent <==>
              st.report.hasRedactedContent || exists e <- events :: ShowsRedaction(e)
    decreases |events|
  {
    if events != [] {
      RedactionIsFlagged(Take(st, events[0]).value, events[1..]);
      assert events == [events[0]] + events[1..];
      assert forall e <- events :: e == events[0] || e in events[1..];
      assert events[0] in events && forall e <- events[1..] :: e in events;
    }
  }

  // ---- where redaction shows ----

  ghost predicate Starred(s: string) {
    exists before: string, after: string :: s == before + "***" + after
  }

  /** At the place in the document there is starred text, or an object with a starred key. */
  ghost predicate StarredAt(value: Json, parts: seq<string>) {
    && Get(value, parts).Some?
    && var here := Get(value, parts).value;
    || (here.Str? && Starred(here.s))
    || (here.Obj? && exists k <- here.members :: Starred(k))
  }

  lemma {:induction false} ContainsAt(s: string, before: string, part: string, after: string)
    requires s == before + part + after
    ensures Contains(s, part)
  {
    assert s[|before|..] == part + after;
    assert part <= s[|before|..];
  }

  lemma RedactedTextIsStarred(s: string)
    ensures RedactedText(s) <==> Starred(s)
  {
    if RedactedText(s) {
      var i :| 0 <= i <= |s| && ("***" <= s[i..] || "****-****-****-" <= s[i..]);
      assert s[i..][..3] == "***";
      assert s == s[..i] + "***" + s[i..][3..];
    }
    if Starred(s) {
      var before, after :| s == before + "***" + after;
      ContainsAt(s, before, "***", after);
    }
  }

  lemma InChild(value: Json, part: string, parts: seq<string>)
    requires Child(value, part).Some? && StarredAt(Child(value, part).value, parts)
    ensures StarredAt(value, [part] + parts)
  {
    assert ([part] + parts)[1..] == parts;
  }

  lemma {:induction false} RedactionIsAt(value: Json) returns (parts: seq<string>)
    requires ContainsRedaction(value)
    ensures StarredAt(value, parts)
    decreases value
  {
    match value
    case Str(s) =>
      RedactedTextIsStarred(s);
      parts := [];
    case Arr(items) =>
      var i :| 0 <= i < |items| && ContainsRedaction(items[i]);
      parts := RedactionIsAt(items[i]);
      DecimalIsIndex(i);
      InChild(value, Decimal(i), parts);
      parts := [Decimal(i)] + parts;
    case Obj(members) =>
      var k :| k in members && (RedactedText(k) || ContainsRedaction(members[k]));
      RedactedTextIsStarred(k);
      if RedactedText(k) {
        parts := [];
      } else {
        parts := RedactionIsAt(members[k]);
        InChild(value, k, parts);
        parts := [k] + parts;
      }
  }

  lemma {:induction false} StarsAreRedaction(value: Json, parts: seq<string>)
    requires StarredAt(value, parts)
    ensures ContainsRedaction(value)
    decreases |parts|
  {
    if parts == [] {
      if value.Str? {
        RedactedTextIsStarred(value.s);
      } else {
        var k :| k in value.members && Starred(k);
        RedactedTextIsStarred(k);
      }
    } else {
      StarsAreRedaction(Child(value, parts[0]).value, parts[1..]);
    }
  }

  /** A document carries redaction exactly when three stars stand in a text or a key somewhere in it. */
  lemma RedactionIsSomewhere(value: Json)
    ensures ContainsRedaction(value) <==> exists parts: seq<string> :: StarredAt(value, parts)
  {
    if ContainsRedaction(value) {
      var parts := RedactionIsAt(value);
      assert StarredAt(value, parts);
    }
    if parts: seq<string> :| StarredAt(value, parts) {
      StarsAreRedaction(value, parts);
    }
  }

  // ---- the lists of the report ----

  function CallOf(e: Event): seq<(string, int, bool)> {
    if e.ToolCall? then [(e.toolName, e.timestamp, ContainsRedaction(e.args))] else []
  }

  function CallsOf(events: seq<Event>): seq<(string, int, bool)>
    decreases |events|
  {
    if events == [] then [] else CallOf(events[0]) + CallsOf(events[1..])
  }

  function PoliciesOf(events: seq<Event>): seq<Event>
    decreases |events|
  {
    if events == [] then [] else (if events[0].PolicyDecision? then [events[0]] else []) + PoliciesOf(events[1..])
  }

  function HitlEventsOf(events: seq<Event>): seq<Event>
    decreases |events|
  {
    if events == [] then [] else (if events[0].HitlEvent? then [events[0]] else []) + HitlEventsOf(events[1..])
  }

  /** One event adds itself to the list of its kind and leaves the others and the count alone. */
  lemma TakeLists(st: Replay, e: Event)
    requires Take(st, e).Some?
    ensures var r, r' := st.report, Take(st, e).value.report;
            && r'.totalEvents == r.totalEvents
            && r'.toolCalls == r.toolCalls + CallOf(e)
            && r'.policyDecisions == r.policyDecisions + (if e.PolicyDecision? then [e] else [])
            && r'.hitlEvents == r.hitlEvents + (if e.HitlEvent? then [e] else [])
  {
  }

  /** The lists of `r'` are those of `r` and what the events add. */
  predicate Lists(r: Report, events: seq<Event>, r': Report) {
    && r'.totalEvents == r.totalEvents
    && r'.toolCalls == r.toolCalls + CallsOf(events)
    && r'.policyDecisions == r.policyDecisions + PoliciesOf(events)
    && r'.hitlEvents == r.hitlEvents + HitlEventsOf(events)
  }

  lemma ListsOfFirst(r: Report, r1: Report, events: seq<Event>, r': Report)
    requires events != [] && Lists(r1, events[1..], r') && r1.totalEvents == r.totalEvents
    requires r1.toolCalls == r.toolCalls + CallOf(events[0])
    requires r1.policyDecisions == r.policyDecisions + (if events[0].PolicyDecision? then [events[0]] else [])
    requires r1.hitlEvents == r.hitlEvents + (if events[0].HitlEvent? then [events[0]] else [])
    ensures Lists(r, events, r')
  {
    var e, rest := events[0], events[1..];
    Associates(r.toolCalls, CallOf(e), CallsOf(rest));
    Associates(r.policyDecisions, if e.PolicyDecision? then [e] else [], PoliciesOf(rest));
    Associates(r.hitlEvents, if e.HitlEvent? then [e] else [], HitlEventsOf(rest));
  }

  lemma {:induction false} ListsGrow(st: Replay, events: seq<Event>)
    requires TakeAll(st, events).Some?
    ensures Lists(st.report, events, TakeAll(st, events).value.report)
    decreases |events|
  {
    if events != [] {
      var next := Take(st, events[0]).value;
      TakeLists(st, events[0]);
      ListsGrow(next, events[1..]);
      ListsOfFirst(st.report, next.report, events, TakeAll(st, events).value.report);
    }
  }

  lemma ListsFromNothing(r: Report, events: seq<Event>, r': Report)
    requires Lists(r, events, r') && r.toolCalls == [] && r.policyDecisions == [] && r.hitlEvents == []
    ensures r'.totalEvents == r.totalEvents && r'.toolCalls == CallsOf(events)
    ensures r'.policyDecisions == PoliciesOf(events) && r'.hitlEvents == HitlEventsOf(events)
  {
    assert [] + CallsOf(events) == CallsOf(events);
    assert [] + PoliciesOf(events) == PoliciesOf(events);
    assert [] + HitlEventsOf(events) == HitlEventsOf(events);
  }

  /** A completed report counts every event and lists calls, decisions and HITL events, each kind in event order. */
  lemma ReportListsEveryEvent(events: seq<Event>)
    requires TakeAll(Start(|events|), events).Some?
    ensures var r := TakeAll(Start(|events|), events).value.report;
            && r.totalEvents == |events|
            && r.toolCalls == CallsOf(events)
            && r.policyDecisions == PoliciesOf(events) && r.hitlEvents == HitlEventsOf(events)
  {
    var st := Start(|events|);
    ListsGrow(st, events);
    ListsFromNothing(st.report, events, TakeAll(st, events).value.report);
  }

  /** What is replayed at all: patches need a snapshot before them and must apply; nothing else can fail. */
  lemma TakeSucceedsIff(st: Replay, e: Event)
    ensures Take(st, e).Some? <==> (e.Patch? ==> st.haveSnapshot && Apply(st.current, e.ops).Some?)
  {
  }

  /** A replay that completes met no patch before its first snapshot. */
  lemma {:induction false} PatchesFollowASnapshot(st: Replay, events: seq<Event>, i: nat)
    requires TakeAll(st, events).Some? && !st.haveSnapshot
    requires i < |events| && events[i].Patch?
    ensures exists j :: 0 <= j < i && events[j].Snapshot?
    decreases |events|
  {
    if !events[0].Snapshot? {
      PatchesFollowASnapshot(Take(st, events[0]).value, events[1..], i - 1);
      var j :| 0 <= j < i - 1 && events[1..][j].Snapshot?;
      assert events[j + 1].Snapshot?;
    }
  }
}
