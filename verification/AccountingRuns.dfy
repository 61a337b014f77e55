/** Cumulative reports of one process turned into totals, over runs of tasks. */
module AccountingRuns {
  import opened Wrappers
  import opened AgentRegistry
  import opened TurnAccounting

  /** One accounted report; `stored` says whether the state file could be loaded at that moment. */
  datatype Entry = Entry(sessionId: string, cost: real, turns: nat, now: int, stored: bool)

  datatype Books = Books(state: StoredState, lastCost: real, lastTurns: nat)

  function Record(b: Books, e: Entry): Books {
    var state :=
      if e.stored
      then Accounted(b.state, e.sessionId, Delta(e.cost, b.lastCost), TurnsDelta(e.turns, b.lastTurns), e.now)
      else b.state;
    Books(state, e.cost, e.turns)
  }

  /** A process starts with nothing reported. */
  function Run(state: StoredState, entries: seq<Entry>): Books {
    if entries == [] then Books(state, 0.0, 0)
    else Record(Run(state, entries[..|entries| - 1]), entries[|entries| - 1])
  }

  function LastCost(entries: seq<Entry>): real {
    if entries == [] then 0.0 else entries[|entries| - 1].cost
  }

  function LastTurns(entries: seq<Entry>): nat {
    if entries == [] then 0 else entries[|entries| - 1].turns
  }

  // ----- How a task ends

  ghost predicate OnlyTexts(queue: seq<Event>, k: nat) {
    k <= |queue| && forall i | 0 <= i < k :: queue[i].TextBlock?
  }

  ghost predicate ReachesReport(queue: seq<Event>, max: Option<nat>, k: nat) {
    && OnlyTexts(queue, k) && (max.Some? ==> TurnsIn(queue[..k]) <= max.value)
    && k < |queue| && queue[k].Report?
  }

  ghost predicate PassesLimit(queue: seq<Event>, max: Option<nat>, k: nat) {
    && OnlyTexts(queue, k + 1) && max.Some?
    && TurnsIn(queue[..k]) <= max.value < TurnsIn(queue[..k + 1])
  }

  /**
   * A task is done exactly when nothing stale says the process exited and a report follows texts that
   * stay within the limit; it is killed exactly when a text passes the limit first, and then the
   * limit is exceeded by one.
   */
  lemma TaskEndsIff(all: seq<Event>, stale: nat, arrived: nat, max: Option<nat>)
    requires stale <= |all|
    ensures var r, queue := OutcomeOf(all, stale, arrived, max), all[stale..];
            && (r.Done? <==> ProcessExited !in all[..stale] && exists k: nat :: ReachesReport(queue, max, k))
            && (r.TurnLimit? <==> ProcessExited !in all[..stale] && exists k: nat :: PassesLimit(queue, max, k))
            && (r.TurnLimit? ==> max == Some(r.max) && r.turns == r.max + 1)
  {
    var queue := all[stale..];
    var end := End(queue, max);
    forall k: nat | ReachesReport(queue, max, k) || PassesLimit(queue, max, k) ensures k == end {
      EndIsUnique(queue, max, k);
    }
    if end < |queue| && queue[end].TextBlock? {
      LimitReached(queue, max, end);
      assert PassesLimit(queue, max, end);
    }
    if end < |queue| && queue[end].Report? {
      assert ReachesReport(queue, max, end);
    }
  }

  // ----- Totals

  /** How far reports went below the ones before them, all told. */
  function Drops(entries: seq<Entry>): real {
    if entries == [] then 0.0
    else
      var before := entries[..|entries| - 1];
      Drops(before) + Delta(LastCost(before), LastCost(entries))
  }

  function TurnDrops(entries: seq<Entry>): nat {
    if entries == [] then 0
    else
      var before := entries[..|entries| - 1];
      TurnDrops(before) + TurnsDelta(LastTurns(before), LastTurns(entries))
  }

  /** What was reported while the state file could not be loaded. */
  function Unstored(entries: seq<Entry>): real {
    if entries == [] then 0.0
    else
      var before, last := entries[..|entries| - 1], entries[|entries| - 1];
      Unstored(before) + if last.stored then 0.0 else Delta(last.cost, LastCost(before))
  }

  function UnstoredTurns(entries: seq<Entry>): nat {
    if entries == [] then 0
    else
      var before, last := entries[..|entries| - 1], entries[|entries| - 1];
      UnstoredTurns(before) + if last.stored then 0 else TurnsDelta(last.turns, LastTurns(before))
  }

  lemma {:induction false} LastReports(state: StoredState, entries: seq<Entry>)
    ensures Run(state, entries).lastCost == LastCost(entries)
    ensures Run(state, entries).lastTurns == LastTurns(entries)
  {
  }

  /** Every total is the last report, plus what reports dropped by, less what could not be stored. */
  lemma {:induction false} TotalsBalance(state: StoredState, entries: seq<Entry>)
    ensures Run(state, entries).state.totalCost
         == state.totalCost + LastCost(entries) + Drops(entries) - Unstored(entries)
    ensures Run(state, entries).state.totalTurns + UnstoredTurns(entries)
         == state.totalTurns + LastTurns(entries) + TurnDrops(entries)
  {
    if entries != [] {
      var before := entries[..|entries| - 1];
      TotalsBalance(state, before);
      LastReports(state, before);
    }
  }

  /** Reports never decrease; the first is not negative. */
  ghost predicate Cumulative(entries: seq<Entry>) {
    forall i | 0 <= i < |entries| :: LastCost(entries[..i]) <= entries[i].cost
  }

  ghost predicate AllStored(entries: seq<Entry>) {
    forall i | 0 <= i < |entries| :: entries[i].stored
  }

  lemma {:induction false} NothingUnstored(entries: seq<Entry>)
    requires AllStored(entries)
    ensures Unstored(entries) == 0.0 && UnstoredTurns(entries) == 0
  {
    if entries != [] {
      NothingUnstored(entries[..|entries| - 1]);
    }
  }

  lemma {:induction false} DropsIff(entries: seq<Entry>)
    ensures Drops(entries) >= 0.0
    ensures Drops(entries) == 0.0 <==> Cumulative(entries)
  {
    if entries != [] {
      var n := |entries| - 1;
      var before := entries[..n];
      DropsIff(before);
      assert forall i | 0 <= i < n :: before[..i] == entries[..i] && before[i] == entries[i];
      assert Cumulative(entries) <==> Cumulative(before) && LastCost(before) <= entries[n].cost;
    }
  }

  ghost predicate TurnsCumulative(entries: seq<Entry>) {
    forall i | 0 <= i < |entries| :: LastTurns(entries[..i]) <= entries[i].turns
  }

  lemma {:induction false} TurnDropsIff(entries: seq<Entry>)
    ensures TurnDrops(entries) == 0 <==> TurnsCumulative(entries)
  {
    if entries != [] {
      var n := |entries| - 1;
      var before := entries[..n];
      TurnDropsIff(before);
      assert forall i | 0 <= i < n :: before[..i] == entries[..i] && before[i] == entries[i];
      assert TurnsCumulative(entries) <==> TurnsCumulative(before) && LastTurns(before) <= entries[n].turns;
    }
  }

  /**
   * A process adds exactly its last report to the total cost when, and only when, reported costs never
   * drop, and likewise to the total of turns.
   */
  lemma {:induction false} TotalIsLastReportIff(state: StoredState, entries: seq<Entry>)
    requires AllStored(entries)
    ensures Run(state, entries).state.totalCost == state.totalCost + LastCost(entries) <==> Cumulative(entries)
    ensures Run(state, entries).state.totalCost >= state.totalCost + LastCost(entries)
    ensures Run(state, entries).state.totalTurns == state.totalTurns + LastTurns(entries) <==> TurnsCumulative(entries)
    ensures Run(state, entries).state.totalTurns >= state.totalTurns + LastTurns(entries)
  {
    TotalsBalance(state, entries);
    NothingUnstored(entries);
    DropsIff(entries);
    TurnDropsIff(entries);
  }

  // ----- Sessions

  /** The entries since the session last changed; all of them when it never did. */
  function SessionStart(state: StoredState, entries: seq<Entry>): (start: nat)
    ensures start <= |entries|
  {
    if entries == [] then 0
    else
      var n := |entries| - 1;
      if entries[n].stored && ChangesSession(Run(state, entries[..n]).state, entries[n].sessionId) then n
      else SessionStart(state, entries[..n])
  }

  predicate SessionChanged(state: StoredState, entries: seq<Entry>) {
    var start := SessionStart(state, entries);
    start < |entries| && entries[start].stored
    && ChangesSession(Run(state, entries[..start]).state, entries[start].sessionId)
  }

  /** The session's figures are the totals less what they were when the session began. */
  lemma {:induction false} SessionCountsSinceChange(state: StoredState, entries: seq<Entry>)
    ensures var after, begun := Run(state, entries).state, Run(state, entries[..SessionStart(state, entries)]).state;
            && after.sessionCost - (if SessionChanged(state, entries) then 0.0 else state.sessionCost)
               == after.totalCost - (if SessionChanged(state, entries) then begun.totalCost else state.totalCost)
            && after.sessionTurns + (if SessionChanged(state, entries) then begun.totalTurns else state.totalTurns)
               == after.totalTurns + (if SessionChanged(state, entries) then 0 else state.sessionTurns)
  {
    if entries != [] {
      var n := |entries| - 1;
      var start := SessionStart(state, entries);
      SessionCountsSinceChange(state, entries[..n]);
      if start < n {
        assert entries[..n][..start] == entries[..start] && entries[..n][start] == entries[start];
      }
      assert entries[..n][..SessionStart(state, entries[..n])] == entries[..SessionStart(state, entries[..n])];
    }
  }

  /** A report that says which session a persistent agent is in. */
  predicate NamesSession(state: StoredState, e: Entry) {
    e.stored && state.config.persistent && e.sessionId != ""
  }

  ghost predicate LastNaming(state: StoredState, entries: seq<Entry>, i: nat) {
    && i < |entries| && NamesSession(state, entries[i])
    && forall j | i < j < |entries| :: !NamesSession(state, entries[j])
  }

  lemma {:induction false} ConfigStays(state: StoredState, entries: seq<Entry>)
    ensures Run(state, entries).state.config == state.config
  {
    if entries != [] {
      ConfigStays(state, entries[..|entries| - 1]);
    }
  }

  lemma SessionAfter(state: StoredState, entries: seq<Entry>)
    requires entries != []
    ensures var (before, last) := (entries[..|entries| - 1], entries[|entries| - 1]);
            Run(state, entries).state.sessionId
            == if NamesSession(state, last) then last.sessionId else Run(state, before).state.sessionId
  {
    ConfigStays(state, entries[..|entries| - 1]);
  }

  lemma {:induction false} SessionIsKept(state: StoredState, entries: seq<Entry>)
    requires forall i | 0 <= i < |entries| :: !NamesSession(state, entries[i])
    ensures Run(state, entries).state.sessionId == state.sessionId
  {
    if entries != [] {
      SessionAfter(state, entries);
      SessionIsKept(state, entries[..|entries| - 1]);
    }
  }

  lemma {:induction false} SessionIsNamedAt(state: StoredState, entries: seq<Entry>, i: nat)
    requires LastNaming(state, entries, i)
    ensures Run(state, entries).state.sessionId == entries[i].sessionId
    decreases |entries|
  {
    SessionAfter(state, entries);
    if i < |entries| - 1 {
      assert !NamesSession(state, entries[|entries| - 1]);
      SessionIsNamedAt(state, entries[..|entries| - 1], i);
    }
  }

  /** The session is the one named last by a stored report; when none names one, it stays as it was. */
  lemma SessionIsLastNamed(state: StoredState, entries: seq<Entry>)
    ensures forall i: nat | LastNaming(state, entries, i) ::
              Run(state, entries).state.sessionId == entries[i].sessionId
    ensures (forall i | 0 <= i < |entries| :: !NamesSession(state, entries[i])) ==>
              Run(state, entries).state.sessionId == state.sessionId
  {
    forall i: nat | LastNaming(state, entries, i)
      ensures Run(state, entries).state.sessionId == entries[i].sessionId
    {
      SessionIsNamedAt(state, entries, i);
    }
    if forall i | 0 <= i < |entries| :: !NamesSession(state, entries[i]) {
      SessionIsKept(state, entries);
    }
  }

  /** The session began when its first report was stored: the one after which the session changed. */
  lemma {:induction false} SessionBeganAtChange(state: StoredState, entries: seq<Entry>)
    ensures Run(state, entries).state.sessionStart
         == if SessionChanged(state, entries) then Some(entries[SessionStart(state, entries)].now)
            else state.sessionStart
  {
    if entries != [] {
      var n := |entries| - 1;
      var start := SessionStart(state, entries);
      SessionBeganAtChange(state, entries[..n]);
      if start < n {
        assert entries[..n][..start] == entries[..start] && entries[..n][start] == entries[start];
      }
    }
  }
}
