/** The restart-storm guard: at most three browser restarts within a sliding minute. */
module RestartLimiter {
  import opened Sequences

  const RESTART_RATE_LIMIT_MAX: nat := 3
  const RESTART_RATE_LIMIT_WINDOW_MS: nat := 60_000

  /** `Instant::duration_since`, which is zero for a later instant. */
  function DurationSince(now: nat, then_: nat): nat {
    if now >= then_ then now - then_ else 0
  }

  /** Forgets attempts that left the window. */
  function Prune(history: seq<nat>, now: nat): seq<nat>
    decreases |history|
  {
    if history != [] && DurationSince(now, history[0]) > RESTART_RATE_LIMIT_WINDOW_MS then Prune(history[1..], now)
    else history
  }

  function Attempt(history: seq<nat>, now: nat): (seq<nat>, bool) {
    var kept := Prune(history, now);
    if |kept| >= RESTART_RATE_LIMIT_MAX then (kept, false) else (kept + [now], true)
  }

  /** `restart_history` and the successful restarts, as the backend holds them. */
  class Restarts {
    var history: seq<nat>
    var browserRestarts: nat

    constructor ()
      ensures history == [] && browserRestarts == 0
    {
      history, browserRestarts := [], 0;
    }

    /** An attempt counts against the limit even when the relaunch fails. */
    method HandleBrowserDisconnect(now: nat, relaunches: bool) returns (restarted: bool)
      modifies this
      ensures history == Attempt(old(history), now).0
      ensures restarted == (Attempt(old(history), now).1 && relaunches)
      ensures browserRestarts == old(browserRestarts) + (if restarted then 1 else 0)
    {
      while history != [] && DurationSince(now, history[0]) > RESTART_RATE_LIMIT_WINDOW_MS
        invariant Prune(history, now) == Prune(old(history), now)
        invariant browserRestarts == old(browserRestarts)
        decreases |history|
      {
        history := history[1..];
      }
      if |history| >= RESTART_RATE_LIMIT_MAX {
        return false;
      }
      history := history + [now];
      if !relaunches {
        return false;
      }
      browserRestarts := browserRestarts + 1;
      return true;
    }
  }

  /** All attempts ever admitted, and the history left after them. */
  datatype Log = Log(attempts: seq<nat>, history: seq<nat>)

  function RunAttempts(times: seq<nat>): Log
    decreases |times|
  {
    if times == [] then Log([], [])
    else
      var before, now := RunAttempts(times[..|times| - 1]), times[|times| - 1];
      var (history, admitted) := Attempt(before.history, now);
      Log(if admitted then before.attempts + [now] else before.attempts, history)
  }

  ghost predicate Sorted(s: seq<nat>) {
    forall i, j :: 0 <= i < j < |s| ==> s[i] <= s[j]
  }

  /** `history` is the end of `attempts` from position `from` on. */
  ghost predicate KeptFrom(attempts: seq<nat>, history: seq<nat>, from: nat) {
    from <= |attempts| && history == attempts[from..]
  }

  ghost predicate OldBefore(attempts: seq<nat>, from: nat, now: nat)
    requires from <= |attempts|
  {
    forall i :: 0 <= i < from ==> now - attempts[i] > RESTART_RATE_LIMIT_WINDOW_MS
  }

  ghost predicate Spaced(attempts: seq<nat>) {
    forall i, j :: 0 <= i && j == i + RESTART_RATE_LIMIT_MAX && j < |attempts| ==>
      attempts[j] - attempts[i] > RESTART_RATE_LIMIT_WINDOW_MS
  }

  ghost predicate UpTo(attempts: seq<nat>, now: nat) {
    forall i :: 0 <= i < |attempts| ==> attempts[i] <= now
  }

  /** The history is the recent end of the attempts; what it dropped is already out of the window. */
  ghost predicate LogOk(log: Log, now: nat) {
    && |log.history| <= RESTART_RATE_LIMIT_MAX && |log.history| <= |log.attempts|
    && KeptFrom(log.attempts, log.history, |log.attempts| - |log.history|)
    && OldBefore(log.attempts, |log.attempts| - |log.history|, now)
    && Sorted(log.attempts) && UpTo(log.attempts, now) && Spaced(log.attempts)
  }

  lemma {:induction false} PruneDropsOldest(history: seq<nat>, now: nat)
    requires forall i :: 0 <= i < |history| ==> history[i] <= now
    ensures var kept := Prune(history, now);
            && |kept| <= |history| && kept == history[|history| - |kept|..]
            && (forall i :: 0 <= i < |history| - |kept| ==> now - history[i] > RESTART_RATE_LIMIT_WINDOW_MS)
    decreases |history|
  {
    if history != [] && DurationSince(now, history[0]) > RESTART_RATE_LIMIT_WINDOW_MS {
      PruneDropsOldest(history[1..], now);
      var kept := Prune(history, now);
      forall i | 0 <= i < |history| - |kept|
        ensures now - history[i] > RESTART_RATE_LIMIT_WINDOW_MS
      {
        assert i == 0 || history[1..][i - 1] == history[i];
      }
    }
  }

  /** An attempt admitted now is out of the window of everything the history dropped. */
  lemma AppendSpaced(attempts: seq<nat>, from: nat, now: nat)
    requires from <= |attempts| && |attempts| - from < RESTART_RATE_LIMIT_MAX
    requires Sorted(attempts) && UpTo(attempts, now) && Spaced(attempts) && OldBefore(attempts, from, now)
    ensures Sorted(attempts + [now]) && UpTo(attempts + [now], now) && Spaced(attempts + [now])
    ensures OldBefore(attempts + [now], from, now)
  {
  }

  lemma PruneKeeps(log: Log, now: nat)
    requires LogOk(log, now)
    ensures LogOk(log.(history := Prune(log.history, now)), now)
  {
    HistoryIsPast(log, now);
    PruneDropsOldest(log.history, now);
    DropKeepsLog(log, Prune(log.history, now), now);
  }

  lemma DropKeepsLog(log: Log, kept: seq<nat>, now: nat)
    requires LogOk(log, now) && |kept| <= |log.history| && kept == log.history[|log.history| - |kept|..]
    requires forall i :: 0 <= i < |log.history| - |kept| ==> now - log.history[i] > RESTART_RATE_LIMIT_WINDOW_MS
    ensures LogOk(log.(history := kept), now)
  {
    DropKeeps(log.attempts, log.history, kept, now);
  }

  lemma HistoryIsPast(log: Log, now: nat)
    requires LogOk(log, now)
    ensures forall i :: 0 <= i < |log.history| ==> log.history[i] <= now
  {
    forall i | 0 <= i < |log.history|
      ensures log.history[i] <= now
    {
      assert log.history[i] == log.attempts[|log.attempts| - |log.history| + i];
    }
  }

  /** Dropping old entries from the front leaves the recent end of the attempts. */
  lemma DropKeeps(attempts: seq<nat>, history: seq<nat>, kept: seq<nat>, now: nat)
    requires |kept| <= |history| <= |attempts|
    requires history == attempts[|attempts| - |history|..] && kept == history[|history| - |kept|..]
    requires OldBefore(attempts, |attempts| - |history|, now)
    requires forall i :: 0 <= i < |history| - |kept| ==> now - history[i] > RESTART_RATE_LIMIT_WINDOW_MS
    ensures KeptFrom(attempts, kept, |attempts| - |kept|) && OldBefore(attempts, |attempts| - |kept|, now)
  {
    var n, m := |attempts|, |history|;
    SuffixOfSuffix(attempts, n - m, m - |kept|);
    forall i | 0 <= i < n - |kept|
      ensures now - attempts[i] > RESTART_RATE_LIMIT_WINDOW_MS
    {
      if i >= n - m {
        assert attempts[i] == history[i - (n - m)];
      }
    }
  }

  lemma AttemptKeeps(before: Log, now: nat)
    requires LogOk(before, now)
    ensures var (history, admitted) := Attempt(before.history, now);
            LogOk(Log(if admitted then before.attempts + [now] else before.attempts, history), now)
  {
    PruneKeeps(before, now);
    var kept := Prune(before.history, now);
    if |kept| < RESTART_RATE_LIMIT_MAX {
      AdmitKeeps(before.(history := kept), now);
    }
  }

  lemma AdmitKeeps(log: Log, now: nat)
    requires LogOk(log, now) && |log.history| < RESTART_RATE_LIMIT_MAX
    ensures LogOk(Log(log.attempts + [now], log.history + [now]), now)
  {
    var from := |log.attempts| - |log.history|;
    AppendSpaced(log.attempts, from, now);
    assert KeptFrom(log.attempts + [now], log.history + [now], from);
  }

  lemma Later(log: Log, then_: nat, now: nat)
    requires LogOk(log, then_) && then_ <= now
    ensures LogOk(log, now)
  {
  }

  lemma {:induction false} RunKeeps(times: seq<nat>, now: nat)
    requires Sorted(times) && (times != [] ==> times[|times| - 1] <= now)
    ensures LogOk(RunAttempts(times), now)
    decreases |times|
  {
    if times != [] {
      var last := times[|times| - 1];
      RunKeeps(times[..|times| - 1], last);
      AttemptKeeps(RunAttempts(times[..|times| - 1]), last);
      Later(RunAttempts(times), last, now);
    }
  }

  lemma FourSpanTheWindow(log: Log, now: nat)
    requires LogOk(log, now)
    ensures Sorted(log.history)
    ensures log.history == log.attempts[|log.attempts| - |log.history|..]
    ensures forall i :: 0 <= i && i + 3 < |log.attempts| ==>
              log.attempts[i + 3] - log.attempts[i] > RESTART_RATE_LIMIT_WINDOW_MS
  {
  }

  /**
    For any run with a non-decreasing clock, any four consecutive attempts, failed relaunches
    included, span more than the window, and the kept history is a sorted suffix of at most three.
   */
  lemma NoRestartStorm(times: seq<nat>)
    requires Sorted(times)
    ensures var log := RunAttempts(times);
            && Sorted(log.history) && |log.history| <= RESTART_RATE_LIMIT_MAX
            && |log.history| <= |log.attempts| && log.history == log.attempts[|log.attempts| - |log.history|..]
            && forall i :: 0 <= i && i + 3 < |log.attempts| ==>
                 log.attempts[i + 3] - log.attempts[i] > RESTART_RATE_LIMIT_WINDOW_MS
  {
    var now := if times == [] then 0 else times[|times| - 1];
    RunKeeps(times, now);
    FourSpanTheWindow(RunAttempts(times), now);
  }

  /** The limit is no stricter than that: an attempt is refused only if three others are within the window. */
  lemma RefusedOnlyInAStorm(times: seq<nat>, now: nat)
    requires Sorted(times) && (times != [] ==> times[|times| - 1] <= now)
    requires !Attempt(RunAttempts(times).history, now).1
    ensures var attempts := RunAttempts(times).attempts;
            && |attempts| >= 3 && now - attempts[|attempts| - 3] <= RESTART_RATE_LIMIT_WINDOW_MS
  {
    RunKeeps(times, now);
    RefusalNeedsThree(RunAttempts(times), now);
  }

  lemma RefusalNeedsThree(log: Log, now: nat)
    requires LogOk(log, now) && !Attempt(log.history, now).1
    ensures |log.attempts| >= 3 && now - log.attempts[|log.attempts| - 3] <= RESTART_RATE_LIMIT_WINDOW_MS
  {
    KeptAreRecent(log.history, now);
    FirstOfThree(log.attempts, log.history, Prune(log.history, now), now);
  }

  lemma FirstOfThree(attempts: seq<nat>, history: seq<nat>, kept: seq<nat>, now: nat)
    requires |kept| == |history| == 3 <= |attempts| && UpTo(attempts, now)
    requires KeptFrom(attempts, history, |attempts| - 3)
    requires kept == history[|history| - |kept|..]
    ensures kept[0] == attempts[|attempts| - 3] <= now
  {
    assert kept[0] == history[0] == attempts[|attempts| - 3];
  }

  lemma {:induction false} KeptAreRecent(history: seq<nat>, now: nat)
    ensures |Prune(history, now)| <= |history|
    ensures Prune(history, now) == history[|history| - |Prune(history, now)|..]
    ensures Prune(history, now) != [] ==> DurationSince(now, Prune(history, now)[0]) <= RESTART_RATE_LIMIT_WINDOW_MS
    decreases |history|
  {
    if history != [] && DurationSince(now, history[0]) > RESTART_RATE_LIMIT_WINDOW_MS {
      KeptAreRecent(history[1..], now);
    }
  }
}
