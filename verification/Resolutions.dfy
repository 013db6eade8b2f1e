/**
  The bounded claim registry of the approval bridge: which request ids are claimed, and in
  which order the finished claims may be forgotten.
 */
module Resolutions {

  const MAX_RESOLUTION_ENTRIES: nat := 1024

  type Id = nat

  /** `entries` maps a request id to the claim that owns it (an index into the bridge's claims). */
  datatype Registry = Registry(entries: map<Id, nat>, terminalOrder: seq<Id>)

  /** Room for one more claim, evicting finished claims oldest first; false when none can go. */
  function MakeRoom(r: Registry): (Registry, bool)
    decreases |r.terminalOrder|
  {
    if |r.entries| < MAX_RESOLUTION_ENTRIES then (r, true)
    else if r.terminalOrder == [] then (r, false)
    else MakeRoom(Forget(r))
  }

  /** Drops the oldest finished claim. */
  function Forget(r: Registry): Registry
    requires r.terminalOrder != []
  {
    Registry(r.entries - {r.terminalOrder[0]}, r.terminalOrder[1..])
  }

  function Trim(r: Registry): Registry
    decreases |r.terminalOrder|
  {
    if |r.terminalOrder| > MAX_RESOLUTION_ENTRIES then Trim(Forget(r)) else r
  }

  function Retire(r: Registry, id: Id): Registry {
    Trim(r.(terminalOrder := r.terminalOrder + [id]))
  }

  ghost predicate Distinct<T>(s: seq<T>) {
    forall i, j :: 0 <= i < j < |s| ==> s[i] != s[j]
  }

  /** The shape every reachable registry has. */
  ghost predicate Sound(r: Registry) {
    && |r.entries| <= MAX_RESOLUTION_ENTRIES
    && Distinct(r.terminalOrder)
    && (forall id <- r.terminalOrder :: id in r.entries)
  }

  lemma {:induction false} DistinctFits<T>(s: seq<T>, within: set<T>)
    requires Distinct(s)
    requires forall x <- s :: x in within
    ensures |s| <= |within|
  {
    if s != [] {
      var last := s[|s| - 1];
      assert last !in s[..|s| - 1];
      DistinctFits(s[..|s| - 1], within - {last});
    }
  }

  /** In a sound registry the eviction loop of `mark_terminal` never runs. */
  lemma RetireNeverEvicts(r: Registry, id: Id)
    requires Sound(r)
    requires id in r.entries && id !in r.terminalOrder
    ensures Retire(r, id) == r.(terminalOrder := r.terminalOrder + [id])
    ensures Sound(Retire(r, id))
  {
    var order := r.terminalOrder + [id];
    forall i, j | 0 <= i < j < |order|
      ensures order[i] != order[j]
    {
      if j == |r.terminalOrder| {
        assert order[i] in r.terminalOrder;
      }
    }
    DistinctFits(order, r.entries.Keys);
    assert |r.entries.Keys| == |r.entries|;
  }

  /**
    Making room in a sound registry evicts at most the one oldest finished claim, fails exactly
    when every entry is still unfinished at capacity, and then changes nothing.
   */
  lemma MakeRoomEvictsOnlyTheOldestFinished(r: Registry)
    requires Sound(r)
    ensures var (r', ok) := MakeRoom(r);
            && Sound(r')
            && (ok <==> |r.entries| < MAX_RESOLUTION_ENTRIES || r.terminalOrder != [])
            && (ok ==> |r'.entries| < MAX_RESOLUTION_ENTRIES)
            && (if ok && |r.entries| == MAX_RESOLUTION_ENTRIES
                then r' == Forget(r) && r.terminalOrder[0] !in r'.entries && |r'.entries| == |r.entries| - 1
                else r' == r)
  {
    if |r.entries| == MAX_RESOLUTION_ENTRIES && r.terminalOrder != [] {
      var oldest := r.terminalOrder[0];
      var r1 := Forget(r);
      assert oldest in r.entries;
      assert r1.entries.Keys == r.entries.Keys - {oldest};
      assert |r1.entries.Keys| == |r.entries.Keys| - 1;
      assert |r1.entries.Keys| == |r1.entries| && |r.entries.Keys| == |r.entries|;
      forall id | id in r1.terminalOrder
        ensures id in r1.entries
      {
        var i :| 0 <= i < |r1.terminalOrder| && r1.terminalOrder[i] == id;
        assert r.terminalOrder[i + 1] == id && r.terminalOrder[0] != id;
        assert id in r.terminalOrder;
      }
    }
  }

  /** The registry as the bridge holds it behind its mutex, updated in place. */
  class ResolutionRegistry {
    var entries: map<Id, nat>
    var terminalOrder: seq<Id>

    constructor ()
      ensures View() == Registry(map[], []) && Sound(View())
    {
      entries, terminalOrder := map[], [];
    }

    ghost function View(): Registry
      reads this
    {
      Registry(entries, terminalOrder)
    }

    method MakeRoomForClaim() returns (ok: bool)
      modifies this
      ensures (View(), ok) == MakeRoom(old(View()))
    {
      while |entries| >= MAX_RESOLUTION_ENTRIES
        invariant MakeRoom(View()) == MakeRoom(old(View()))
        decreases |terminalOrder|
      {
        if terminalOrder == [] {
          return false;
        }
        var expired := terminalOrder[0];
        terminalOrder := terminalOrder[1..];
        entries := entries - {expired};
      }
      return true;
    }

    method MarkTerminal(id: Id)
      modifies this
      ensures View() == Retire(old(View()), id)
    {
      terminalOrder := terminalOrder + [id];
      while |terminalOrder| > MAX_RESOLUTION_ENTRIES
        invariant Trim(View()) == Retire(old(View()), id)
        decreases |terminalOrder|
      {
        var expired := terminalOrder[0];
        terminalOrder := terminalOrder[1..];
        entries := entries - {expired};
      }
    }
  }
}
