/** Many tasks on one stream of events: what the drains drop, and what the totals then are. */
module EventStreams {
  import opened Sequences
  import opened Wrappers
  import opened AgentRegistry
  import opened TurnAccounting
  import opened AccountingRuns

  // ----- What the drain behind a report drops

  lemma {:induction false} LeadingTextsAre(rest: seq<Event>, ready: nat, j: nat)
    requires ready <= |rest| && j <= |rest| && forall i | 0 <= i < j :: rest[i].TextBlock?
    requires j < |rest| ==> !rest[j].TextBlock?
    ensures LeadingTexts(rest, ready) == if ready <= j then ready else j
    decreases ready
  {
    if ready > 0 && j > 0 {
      assert forall i | 0 <= i < j - 1 :: rest[1..][i] == rest[i + 1];
      LeadingTextsAre(rest[1..], ready - 1, j - 1);
    }
  }

  lemma DrainStopsAt(rest: seq<Event>, arrived: nat, j: nat)
    requires j < |rest| && !rest[j].TextBlock? && forall i | 0 <= i < j :: rest[i].TextBlock?
    ensures LeftAfter(rest, arrived) == if arrived <= j then rest[arrived..] else rest[j + 1..]
  {
    LeadingTextsAre(rest, Available(rest, arrived), j);
  }

  /** Event `j` of the queue is the first behind event `k` that is no text. */
  ghost predicate NextOther(queue: seq<Event>, k: nat, j: nat) {
    k < j < |queue| && !queue[j].TextBlock? && forall i | k < i < j :: queue[i].TextBlock?
  }

  lemma RemainingIs(all: seq<Event>, stale: nat, arrived: nat, max: Option<nat>, k: nat)
    requires stale <= |all| && ReachesReport(all[stale..], max, k)
    ensures Remaining(all, stale, arrived, max) == LeftAfter(all[stale..][k + 1..], arrived)
  {
    EndIsUnique(all[stale..], max, k);
  }

  lemma NextOtherShifts(queue: seq<Event>, k: nat, j: nat)
    requires NextOther(queue, k, j)
    ensures var rest := queue[k + 1..];
            !rest[j - k - 1].TextBlock? && forall i | 0 <= i < j - k - 1 :: rest[i].TextBlock?
  {
  }

  /**
   * The first event behind a report that is no text ends the drain when it has arrived by then, and is
   * dropped, whatever it is; otherwise it is left for the next task with all that follows.
   */
  lemma NextOtherIsDroppedIff(all: seq<Event>, stale: nat, arrived: nat, max: Option<nat>, k: nat, j: nat)
    requires stale <= |all| && ReachesReport(all[stale..], max, k) && NextOther(all[stale..], k, j)
    ensures Remaining(all, stale, arrived, max)
         == if arrived <= j - k - 1 then all[stale..][k + 1 + arrived..] else all[stale..][j + 1..]
  {
    var rest := all[stale..][k + 1..];
    RemainingIs(all, stale, arrived, max, k);
    assert LeftAfter(rest, arrived) == if arrived <= j - k - 1 then rest[arrived..] else rest[j - k..] by {
      NextOtherShifts(all[stale..], k, j);
      DrainStopsAt(rest, arrived, j - k - 1);
    }
    if arrived <= j - k - 1 {
      TailOfTail(all[stale..], k + 1, arrived);
    } else {
      TailOfTail(all[stale..], k + 1, j - k);
    }
  }

  /** Said of the event itself, when it does not come again: a second report is lost like an exit. */
  lemma OtherRemainsIff(all: seq<Event>, stale: nat, arrived: nat, max: Option<nat>, k: nat, j: nat)
    requires stale <= |all| && ReachesReport(all[stale..], max, k) && NextOther(all[stale..], k, j)
    requires all[stale..][j] !in all[stale..][j + 1..]
    ensures all[stale..][j] in Remaining(all, stale, arrived, max) <==> arrived <= j - k - 1
  {
    NextOtherIsDroppedIff(all, stale, arrived, max, k, j);
    var queue := all[stale..];
    if arrived <= j - k - 1 {
      assert queue[k + 1 + arrived..][j - k - 1 - arrived] == queue[j];
    }
  }

  lemma OutcomeWhenAllWaits(left: seq<Event>, arrived: nat, max: Option<nat>)
    ensures OutcomeOf(left, |left|, arrived, max)
         == if ProcessExited in left then ExitedBetweenTurns else ChannelClosed
  {
    assert left[..|left|] == left && left[|left|..] == [];
  }

  /**
   * A process exits behind a report, with only texts between: the next task, once all that is left
   * waits, finds the exit exactly when it had not arrived by the end of the drain; otherwise it is told
   * that the channel is closed.
   */
  lemma ExitBehindReport(all: seq<Event>, stale: nat, arrived: nat, max: Option<nat>, k: nat, j: nat,
                         arrived2: nat, max2: Option<nat>)
    requires stale <= |all| && ReachesReport(all[stale..], max, k) && NextOther(all[stale..], k, j)
    requires all[stale..][j].ProcessExited? && j == |all| - stale - 1
    ensures var left := Remaining(all, stale, arrived, max);
            OutcomeOf(left, |left|, arrived2, max2)
            == if arrived <= j - k - 1 then ExitedBetweenTurns else ChannelClosed
  {
    OtherRemainsIff(all, stale, arrived, max, k, j);
    OutcomeWhenAllWaits(Remaining(all, stale, arrived, max), arrived2, max2);
  }

  // ----- A run of tasks

  /** How one task finds the stream: what waits, what has arrived when its report is read, its limit. */
  datatype Turn = Turn(stale: nat, arrived: nat, max: Option<nat>, now: int)

  /** No more wait than the turn says, and no more than there are. */
  function Waiting(all: seq<Event>, turn: Turn): (n: nat)
    ensures n <= |all| && n <= turn.stale && (n == turn.stale || n == |all|)
  {
    if turn.stale < |all| then turn.stale else |all|
  }

  ghost function OutcomeAt(all: seq<Event>, turn: Turn): Outcome {
    OutcomeOf(all, Waiting(all, turn), turn.arrived, turn.max)
  }

  ghost function LeftBy(all: seq<Event>, turn: Turn): seq<Event> {
    Remaining(all, Waiting(all, turn), turn.arrived, turn.max)
  }

  function EntryOf(result: TurnResult, now: int): Entry {
    Entry(result.sessionId, result.cost, result.turns, now, true)
  }

  /** The reports that are accounted for, up to the first task that fails. */
  ghost function EntriesOf(all: seq<Event>, turns: seq<Turn>): seq<Entry>
    decreases |turns|
  {
    if turns == [] || !OutcomeAt(all, turns[0]).Done? then []
    else [EntryOf(OutcomeAt(all, turns[0]).result, turns[0].now)] + EntriesOf(LeftBy(all, turns[0]), turns[1..])
  }

  /** The process after accounting for `entries`, apart from a pid cleared by a kill. */
  ghost predicate Books(content: Option<StoredState>, start: StoredState, cost: real, turns: nat, entries: seq<Entry>) {
    var books := Run(start, entries);
    && content.Some? && content.value.(pid := 0) == books.state.(pid := 0)
    && cost == books.lastCost && turns == books.lastTurns
  }

  lemma RecordBooks(start: StoredState, entries: seq<Entry>, e: Entry)
    ensures Run(start, entries + [e]) == Record(Run(start, entries), e)
  {
    assert (entries + [e])[..|entries|] == entries;
  }

  lemma AccountKeepsBooks(content: Option<StoredState>, start: StoredState, cost: real, turns: nat,
                          entries: seq<Entry>, result: TurnResult, now: int)
    requires Books(content, start, cost, turns, entries)
    ensures Books(AccountedIn(content, result.sessionId, Delta(result.cost, cost),
                              TurnsDelta(result.turns, turns), now),
                  start, result.cost, result.turns, entries + [EntryOf(result, now)])
  {
    RecordBooks(start, entries, EntryOf(result, now));
  }

  method RunTurn(process: AgentProcess, turn: Turn, ghost start: StoredState, ghost entries: seq<Entry>)
    returns (outcome: Outcome)
    requires Books(process.file.content, start, process.lastReportedCost, process.lastReportedTurns, entries)
    modifies process, process.file
    ensures outcome == OutcomeAt(old(process.queue), turn)
    ensures outcome.Done? ==> process.queue == LeftBy(old(process.queue), turn)
    ensures Books(process.file.content, start, process.lastReportedCost, process.lastReportedTurns,
                  if outcome.Done? then entries + [EntryOf(outcome.result, turn.now)] else entries)
  {
    ghost var content, cost, count := process.file.content, process.lastReportedCost, process.lastReportedTurns;
    outcome := process.SendTask(Waiting(process.queue, turn), turn.arrived, turn.max, turn.now);
    if outcome.Done? {
      AccountKeepsBooks(content, start, cost, count, entries, outcome.result, turn.now);
    }
  }

  /** `entries` are those of the first `done` tasks, which leave `queue` to the others. */
  ghost predicate Accounts(whole: seq<Entry>, entries: seq<Entry>, queue: seq<Event>, turns: seq<Turn>, done: nat)
    requires done <= |turns|
  {
    |entries| == done && whole == entries + EntriesOf(queue, turns[done..])
  }

  lemma AccountsGoOn(whole: seq<Entry>, entries: seq<Entry>, queue: seq<Event>, turns: seq<Turn>, done: nat)
    requires done < |turns| && Accounts(whole, entries, queue, turns, done)
    ensures var outcome := OutcomeAt(queue, turns[done]);
            if outcome.Done? then
              var e := EntryOf(outcome.result, turns[done].now);
              Accounts(whole, entries + [e], LeftBy(queue, turns[done]), turns, done + 1)
            else entries == whole
  {
    assert turns[done..][0] == turns[done] && turns[done..][1..] == turns[done + 1..];
    var outcome := OutcomeAt(queue, turns[done]);
    if outcome.Done? {
      var e, rest := EntryOf(outcome.result, turns[done].now), EntriesOf(LeftBy(queue, turns[done]), turns[done + 1..]);
      assert EntriesOf(queue, turns[done..]) == [e] + rest;
      AppendInTurn(entries, [e], rest);
    }
  }

  /** Task after task on one process, until one fails. */
  method RunTurns(process: AgentProcess, turns: seq<Turn>, ghost start: StoredState) returns (done: nat)
    requires process.file.content == Some(start)
    requires process.lastReportedCost == 0.0 && process.lastReportedTurns == 0
    modifies process, process.file
    ensures Books(process.file.content, start, process.lastReportedCost, process.lastReportedTurns,
                  EntriesOf(old(process.queue), turns))
    ensures done == |EntriesOf(old(process.queue), turns)|
  {
    ghost var entries: seq<Entry> := [];
    ghost var whole := EntriesOf(process.queue, turns);
    done := 0;
    assert turns[0..] == turns;
    while done < |turns|
      invariant done <= |turns| && Accounts(whole, entries, process.queue, turns, done)
      invariant Books(process.file.content, start, process.lastReportedCost, process.lastReportedTurns, entries)
    {
      AccountsGoOn(whole, entries, process.queue, turns, done);
      var outcome := RunTurn(process, turns[done], start, entries);
      if !outcome.Done? {
        return;
      }
      entries := entries + [EntryOf(outcome.result, turns[done].now)];
      done := done + 1;
    }
    assert turns[done..] == [];
    assert entries + [] == entries;
  }

  // ----- Totals over a stream

  /** The reports of the stream are at least `least` and never decrease, those that get dropped included. */
  ghost predicate CumulativeStream(all: seq<Event>, least: real) {
    && (forall i | 0 <= i < |all| && all[i].Report? :: all[i].cost >= least)
    && (forall i, j | 0 <= i < j < |all| && all[i].Report? && all[j].Report? :: all[i].cost <= all[j].cost)
  }

  lemma LeftAfterIsTail(rest: seq<Event>, arrived: nat) returns (taken: nat)
    ensures taken <= |rest| && LeftAfter(rest, arrived) == rest[taken..]
  {
    var ready := Available(rest, arrived);
    var n := LeadingTexts(rest, ready);
    taken := if n < ready then n + 1 else n;
  }

  /** A finished task read its report, and leaves all but the first `taken` of what came behind it. */
  lemma TaskLeaves(all: seq<Event>, stale: nat, arrived: nat, max: Option<nat>) returns (k: nat, taken: nat)
    requires stale <= |all| && OutcomeOf(all, stale, arrived, max).Done?
    ensures var queue := all[stale..];
            && k < |queue| && queue[k].Report? && OutcomeOf(all, stale, arrived, max).result.cost == queue[k].cost
            && taken <= |queue[k + 1..]| && Remaining(all, stale, arrived, max) == queue[k + 1..][taken..]
  {
    var queue := all[stale..];
    k := End(queue, max);
    taken := LeftAfterIsTail(queue[k + 1..], arrived);
  }

  /** A finished task took its report and leaves a part of what came behind it. */
  lemma TaskTakes(all: seq<Event>, turn: Turn) returns (at: nat, from: nat)
    requires OutcomeAt(all, turn).Done?
    ensures at < from <= |all| && LeftBy(all, turn) == all[from..]
    ensures all[at].Report? && OutcomeAt(all, turn).result.cost == all[at].cost
  {
    var stale := Waiting(all, turn);
    var k, taken := TaskLeaves(all, stale, turn.arrived, turn.max);
    at, from := stale + k, stale + (k + 1) + taken;
    TailOfTail(all, stale, k + 1);
    TailOfTail(all, stale + (k + 1), taken);
  }

  lemma StreamGoesOn(all: seq<Event>, least: real, at: nat, from: nat)
    requires CumulativeStream(all, least) && at < from <= |all| && all[at].Report?
    ensures all[at].cost >= least && CumulativeStream(all[from..], all[at].cost)
  {
    assert forall i | from <= i < |all| :: all[from..][i - from] == all[i];
  }

  function CostBefore(entries: seq<Entry>, least: real, i: nat): real
    requires i <= |entries|
  {
    if i == 0 then least else entries[i - 1].cost
  }

  ghost predicate CumulativeFrom(entries: seq<Entry>, least: real) {
    forall i: nat | i < |entries| :: CostBefore(entries, least, i) <= entries[i].cost
  }

  lemma CumulativeCons(e: Entry, rest: seq<Entry>, least: real)
    requires e.cost >= least && CumulativeFrom(rest, e.cost)
    ensures CumulativeFrom([e] + rest, least)
  {
    var all := [e] + rest;
    forall i: nat | i < |all| ensures CostBefore(all, least, i) <= all[i].cost {
      if i > 0 {
        assert CostBefore(all, least, i) == CostBefore(rest, e.cost, i - 1);
      }
    }
  }

  lemma {:induction false} EntriesAreCumulative(all: seq<Event>, turns: seq<Turn>, least: real)
    requires CumulativeStream(all, least)
    ensures CumulativeFrom(EntriesOf(all, turns), least)
    decreases |turns|
  {
    if turns != [] && OutcomeAt(all, turns[0]).Done? {
      var at, from := TaskTakes(all, turns[0]);
      StreamGoesOn(all, least, at, from);
      EntriesAreCumulative(all[from..], turns[1..], all[at].cost);
      CumulativeCons(EntryOf(OutcomeAt(all, turns[0]).result, turns[0].now), EntriesOf(all[from..], turns[1..]), least);
    }
  }

  lemma {:induction false} EntriesAreStored(all: seq<Event>, turns: seq<Turn>)
    ensures AllStored(EntriesOf(all, turns))
    decreases |turns|
  {
    if turns != [] && OutcomeAt(all, turns[0]).Done? {
      EntriesAreStored(LeftBy(all, turns[0]), turns[1..]);
    }
  }

  /**
   * On a stream whose reports never decrease, the tasks of a process add exactly the last report that
   * was accounted for: reports that a drain dropped on the way are made up for by the next one.
   */
  lemma DroppedReportsAreMadeUp(start: StoredState, all: seq<Event>, turns: seq<Turn>)
    requires CumulativeStream(all, 0.0)
    ensures var entries := EntriesOf(all, turns);
            Run(start, entries).state.totalCost == start.totalCost + LastCost(entries)
  {
    var entries := EntriesOf(all, turns);
    EntriesAreCumulative(all, turns, 0.0);
    EntriesAreStored(all, turns);
    assert Cumulative(entries) by {
      forall i | 0 <= i < |entries| ensures LastCost(entries[..i]) <= entries[i].cost {
        assert LastCost(entries[..i]) == CostBefore(entries, 0.0, i);
      }
    }
    TotalIsLastReportIff(start, entries);
  }
}
