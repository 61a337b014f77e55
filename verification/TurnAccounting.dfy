/** One task of the persistent process: its event loop, turn limit and accounting. */
module TurnAccounting {
  import opened Sequences
  import opened Wrappers
  import opened AgentRegistry

  const U32_MAX: nat := 0xFFFF_FFFF

  /** `tokens` stands for the four token counters, which are always added together. */
  datatype Event =
    | TextBlock(text: string, tokens: nat, toolUses: nat)
    | Report(sessionId: string, cost: real, turns: nat)
    | ProcessExited

  datatype TurnResult = TurnResult(
    text: string,
    sessionId: string,
    cost: real,
    turns: nat,
    tokens: nat,
    toolUses: nat)

  datatype Outcome =
    | Done(result: TurnResult)
    | ExitedBetweenTurns
    | ExitedMidTask
    | ChannelClosed
    | TurnLimit(max: nat, turns: nat)

  // ----- What a sequence of events amounts to

  function TextOf(events: seq<Event>): string {
    if events == [] then ""
    else
      var last := events[|events| - 1];
      TextOf(events[..|events| - 1]) + if last.TextBlock? then last.text else ""
  }

  function TurnOf(event: Event): nat {
    if event.TextBlock? && event.text != "" then 1 else 0
  }

  /** Assistant turns are the text blocks that are not empty. */
  function TurnsIn(events: seq<Event>): nat {
    if events == [] then 0
    else
      var last := events[|events| - 1];
      TurnsIn(events[..|events| - 1]) + TurnOf(last)
  }

  function TokensIn(events: seq<Event>): nat {
    if events == [] then 0
    else
      var last := events[|events| - 1];
      TokensIn(events[..|events| - 1]) + if last.TextBlock? then last.tokens else 0
  }

  function ToolUsesIn(events: seq<Event>): nat {
    if events == [] then 0
    else
      var last := events[|events| - 1];
      ToolUsesIn(events[..|events| - 1]) + if last.TextBlock? then last.toolUses else 0
  }

  lemma OneMoreText(queue: seq<Event>, k: nat)
    requires k < |queue| && queue[k].TextBlock?
    ensures TextOf(queue[..k + 1]) == TextOf(queue[..k]) + queue[k].text
    ensures TurnsIn(queue[..k + 1]) == TurnsIn(queue[..k]) + TurnOf(queue[k])
    ensures TokensIn(queue[..k + 1]) == TokensIn(queue[..k]) + queue[k].tokens
    ensures ToolUsesIn(queue[..k + 1]) == ToolUsesIn(queue[..k]) + queue[k].toolUses
  {
    assert queue[..k + 1][..k] == queue[..k];
  }

  datatype Tally = Tally(text: string, turns: nat, tokens: nat, toolUses: nat)

  function TallyOf(events: seq<Event>): Tally {
    Tally(TextOf(events), TurnsIn(events), TokensIn(events), Saturated(ToolUsesIn(events)))
  }

  function Added(t: Tally, event: Event): Tally
    requires event.TextBlock?
  {
    Tally(t.text + event.text, t.turns + TurnOf(event), t.tokens + event.tokens, Saturated(t.toolUses + event.toolUses))
  }

  lemma TallyOneMore(queue: seq<Event>, k: nat)
    requires k < |queue| && queue[k].TextBlock?
    ensures TallyOf(queue[..k + 1]) == Added(TallyOf(queue[..k]), queue[k])
  {
    OneMoreText(queue, k);
  }

  lemma ConcatPush(parts: seq<string>, part: string)
    ensures Concat(parts + [part]) == Concat(parts) + part
  {
    assert (parts + [part])[..|parts|] == parts;
  }

  function Saturated(n: nat): nat {
    if n > U32_MAX then U32_MAX else n
  }

  function Concat(parts: seq<string>): string {
    if parts == [] then "" else Concat(parts[..|parts| - 1]) + parts[|parts| - 1]
  }

  predicate WithinLimit(turns: nat, max: Option<nat>) {
    max.None? || turns <= max.value
  }

  /** The loop goes past the first `k` events: all are text, and within the turn limit. */
  ghost predicate GoesPast(queue: seq<Event>, max: Option<nat>, k: nat) {
    && k <= |queue|
    && (forall i | 0 <= i < k :: queue[i].TextBlock?)
    && WithinLimit(TurnsIn(queue[..k]), max)
  }

  /** The loop ends at event `k`, or for want of events when `k` is the length. */
  ghost predicate EndsAt(queue: seq<Event>, max: Option<nat>, k: nat) {
    GoesPast(queue, max, k) && !GoesPast(queue, max, k + 1)
  }

  /** How many of the first `ready` events are text, up to the first that is not. */
  function LeadingTexts(queue: seq<Event>, ready: nat): (n: nat)
    requires ready <= |queue|
    ensures n <= ready
    ensures forall i | 0 <= i < n :: queue[i].TextBlock?
    ensures n < ready ==> !queue[n].TextBlock?
  {
    if ready == 0 || !queue[0].TextBlock? then 0 else 1 + LeadingTexts(queue[1..], ready - 1)
  }

  // ----- Accounting

  function Delta(report: real, last: real): real {
    if report > last then report - last else 0.0
  }

  function TurnsDelta(report: nat, last: nat): nat {
    if report > last then report - last else 0
  }

  predicate ChangesSession(state: StoredState, sessionId: string) {
    state.config.persistent && sessionId != "" && state.sessionId != sessionId
  }

  function Accounted(state: StoredState, sessionId: string, cost: real, turns: nat, now: int): StoredState {
    var renewed :=
      if ChangesSession(state, sessionId)
      then state.(sessionId := sessionId, sessionStart := Some(now), sessionCost := 0.0, sessionTurns := 0)
      else state;
    renewed.(totalCost := renewed.totalCost + cost, totalTurns := renewed.totalTurns + turns,
             sessionCost := renewed.sessionCost + cost, sessionTurns := renewed.sessionTurns + turns)
  }

  function AccountedIn(content: Option<StoredState>, sessionId: string, cost: real, turns: nat, now: int)
    : Option<StoredState>
  {
    match content
    case None => None
    case Some(state) => Some(Accounted(state, sessionId, cost, turns, now))
  }

  // ----- The process

  /**
   * Adds up text blocks until something else comes, the events end or the turn limit is passed. Each
   * text that is not empty goes to the sink at once.
   */
  method ReadTexts(queue: seq<Event>, max: Option<nat>)
    returns (k: nat, tally: Tally, progress: seq<string>)
    ensures EndsAt(queue, max, k)
    ensures tally == TallyOf(queue[..k])
    ensures Concat(progress) == tally.text
  {
    k, tally, progress := 0, Tally("", 0, 0, 0), [];
    while k < |queue| && queue[k].TextBlock?
      invariant GoesPast(queue, max, k)
      invariant tally == TallyOf(queue[..k])
      invariant Concat(progress) == tally.text
    {
      var event := queue[k];
      TallyOneMore(queue, k);
      if max.Some? && tally.turns + TurnOf(event) > max.value {
        return;
      }
      if event.text != "" {
        ConcatPush(progress, event.text);
        progress := progress + [event.text];
      }
      tally := Added(tally, event);
      k := k + 1;
    }
  }

  ghost function EndFrom(queue: seq<Event>, max: Option<nat>, k: nat): (end: nat)
    requires GoesPast(queue, max, k)
    ensures EndsAt(queue, max, end)
    decreases |queue| - k
  {
    if GoesPast(queue, max, k + 1) then EndFrom(queue, max, k + 1) else k
  }

  /** Where the loop ends. */
  ghost function End(queue: seq<Event>, max: Option<nat>): (end: nat)
    ensures EndsAt(queue, max, end)
  {
    EndFrom(queue, max, 0)
  }

  lemma {:induction false} TurnsGrow(queue: seq<Event>, j: nat, k: nat)
    requires j <= k <= |queue|
    ensures TurnsIn(queue[..j]) <= TurnsIn(queue[..k])
  {
    if j < k {
      TurnsGrow(queue, j, k - 1);
      assert queue[..k][..k - 1] == queue[..k - 1];
    }
  }

  lemma EndIsUnique(queue: seq<Event>, max: Option<nat>, k: nat)
    requires EndsAt(queue, max, k)
    ensures k == End(queue, max)
  {
    var end := End(queue, max);
    if k < end {
      TurnsGrow(queue, k + 1, end);
    } else if end < k {
      TurnsGrow(queue, end + 1, k);
    }
  }

  lemma LimitReached(queue: seq<Event>, max: Option<nat>, k: nat)
    requires EndsAt(queue, max, k) && k < |queue| && queue[k].TextBlock?
    ensures max == Some(TurnsIn(queue[..k])) && queue[k].text != ""
  {
    OneMoreText(queue, k);
  }

  function WithTrailing(before: Tally, texts: seq<Event>): Tally {
    before.(text := before.text + TextOf(texts), toolUses := Saturated(before.toolUses + ToolUsesIn(texts)))
  }

  lemma TrailingOneMore(before: Tally, queue: seq<Event>, n: nat)
    requires n < |queue| && queue[n].TextBlock?
    ensures var t := WithTrailing(before, queue[..n]);
            WithTrailing(before, queue[..n + 1])
            == t.(text := t.text + queue[n].text, toolUses := Saturated(t.toolUses + queue[n].toolUses))
  {
    OneMoreText(queue, n);
    AppendInTurn(before.text, TextOf(queue[..n]), queue[n].text);
  }

  /** After the report: takes the texts that are ready, sending every one of them to the sink. */
  method ReadTrailing(queue: seq<Event>, ready: nat, before: Tally, sent: seq<string>)
    returns (n: nat, tally: Tally, progress: seq<string>)
    requires ready <= |queue| && before.toolUses <= U32_MAX && Concat(sent) == before.text
    ensures n == LeadingTexts(queue, ready)
    ensures tally == WithTrailing(before, queue[..n])
    ensures Concat(progress) == tally.text
  {
    n, tally, progress := 0, before, sent;
    assert WithTrailing(before, queue[..0]) == before;
    while n < ready && queue[n].TextBlock?
      invariant n <= ready && n + LeadingTexts(queue[n..], ready - n) == LeadingTexts(queue, ready)
      invariant tally == WithTrailing(before, queue[..n])
      invariant Concat(progress) == tally.text
    {
      TrailingOneMore(before, queue, n);
      ConcatPush(progress, queue[n].text);
      assert queue[n..][1..] == queue[n + 1..];
      progress := progress + [queue[n].text];
      tally := tally.(text := tally.text + queue[n].text, toolUses := Saturated(tally.toolUses + queue[n].toolUses));
      n := n + 1;
    }
  }

  function Available(rest: seq<Event>, arrived: nat): (n: nat)
    ensures n <= |rest|
  {
    if arrived < |rest| then arrived else |rest|
  }

  /** What is left after the trailing texts; an event that ends them is taken and dropped. */
  function LeftAfter(rest: seq<Event>, arrived: nat): seq<Event> {
    var ready := Available(rest, arrived);
    var n := LeadingTexts(rest, ready);
    if n < ready then rest[n + 1..] else rest[n..]
  }

  function ResultOf(tally: Tally, report: Event): TurnResult
    requires report.Report?
  {
    TurnResult(tally.text, report.sessionId, report.cost, report.turns, tally.tokens, tally.toolUses)
  }

  /** What one task comes to, given all the process will still send. */
  ghost function OutcomeOf(all: seq<Event>, stale: nat, arrived: nat, max: Option<nat>): Outcome
    requires stale <= |all|
  {
    if ProcessExited in all[..stale] then ExitedBetweenTurns
    else
      var queue := all[stale..];
      var k := End(queue, max);
      if k == |queue| then ChannelClosed
      else
        match queue[k]
        case TextBlock(_, _, _) => TurnLimit(TurnsIn(queue[..k]), TurnsIn(queue[..k]) + 1)
        case ProcessExited => ExitedMidTask
        case Report(_, _, _) =>
          var rest := queue[k + 1..];
          var n := LeadingTexts(rest, Available(rest, arrived));
          Done(ResultOf(WithTrailing(TallyOf(queue[..k]), rest[..n]), queue[k]))
  }

  /** What a task that is done leaves in the channel. */
  ghost function Remaining(all: seq<Event>, stale: nat, arrived: nat, max: Option<nat>): seq<Event>
    requires stale <= |all|
  {
    var queue := all[stale..];
    var k := End(queue, max);
    if k < |queue| then LeftAfter(queue[k + 1..], arrived) else []
  }

  // ----- What the result says

  /** The figures of a sequence of events are those of its parts, added up. */
  lemma {:induction false} FiguresJoin(a: seq<Event>, b: seq<Event>)
    ensures TextOf(a + b) == TextOf(a) + TextOf(b) && TurnsIn(a + b) == TurnsIn(a) + TurnsIn(b)
    ensures TokensIn(a + b) == TokensIn(a) + TokensIn(b) && ToolUsesIn(a + b) == ToolUsesIn(a) + ToolUsesIn(b)
    decreases |b|
  {
    if b == [] {
      assert a + b == a;
    } else {
      FiguresJoin(a, b[..|b| - 1]);
      assert (a + b)[..|a + b| - 1] == a + b[..|b| - 1];
    }
  }

  /** A text block has its own figures, and anything else has none. */
  lemma FiguresOfOne(event: Event)
    ensures match event
            case TextBlock(text, tokens, toolUses) =>
              && TextOf([event]) == text && TurnsIn([event]) == (if text == "" then 0 else 1)
              && TokensIn([event]) == tokens && ToolUsesIn([event]) == toolUses
            case _ =>
              TextOf([event]) == "" && TurnsIn([event]) == TokensIn([event]) == ToolUsesIn([event]) == 0
  {
    assert [event][..0] == [];
  }

  /** The result of a task whose report came after `texts` and before `trailing`. */
  ghost predicate Says(r: TurnResult, texts: seq<Event>, report: Event, trailing: seq<Event>) {
    && report == Report(r.sessionId, r.cost, r.turns)
    && r.text == TextOf(texts + trailing) && r.tokens == TokensIn(texts)
    && (ToolUsesIn(texts + trailing) <= U32_MAX ==> r.toolUses == ToolUsesIn(texts + trailing))
    && (ToolUsesIn(texts + trailing) > U32_MAX ==> r.toolUses == U32_MAX)
  }

  lemma ResultOfSays(texts: seq<Event>, report: Event, trailing: seq<Event>)
    requires report.Report?
    ensures Says(ResultOf(WithTrailing(TallyOf(texts), trailing), report), texts, report, trailing)
  {
    FiguresJoin(texts, trailing);
  }

  /**
   * The result of a task that is done repeats its report; its text is that of the blocks before the
   * report and of the ready ones behind it, its tokens are those of the blocks before, and tool uses of
   * both are counted up to the width of the counter.
   */
  lemma ResultSays(all: seq<Event>, stale: nat, arrived: nat, max: Option<nat>)
    requires stale <= |all| && OutcomeOf(all, stale, arrived, max).Done?
    ensures var (r, queue) := (OutcomeOf(all, stale, arrived, max).result, all[stale..]);
            var k := End(queue, max);
            && k < |queue|
            && var rest := queue[k + 1..];
               Says(r, queue[..k], queue[k], rest[..LeadingTexts(rest, Available(rest, arrived))])
  {
    var queue := all[stale..];
    var k := End(queue, max);
    var rest := queue[k + 1..];
    ResultOfSays(queue[..k], queue[k], rest[..LeadingTexts(rest, Available(rest, arrived))]);
  }

  class AgentProcess {
    const file: StateFile
    const spawnPid: nat
    var running: bool
    var queue: seq<Event>
    var progress: seq<string> // what the sink got for the current task
    var lastReportedCost: real
    var lastReportedTurns: nat

    constructor (file: StateFile, spawnPid: nat)
      ensures this.file == file && this.spawnPid == spawnPid
      ensures running && queue == [] && progress == []
      ensures lastReportedCost == 0.0 && lastReportedTurns == 0
    {
      this.file, this.spawnPid := file, spawnPid;
      running, queue, progress := true, [], [];
      lastReportedCost, lastReportedTurns := 0.0, 0;
    }

    method Kill()
      modifies this`running, file
      ensures !running
      ensures file.content == if spawnPid > 0 then PidCleared(old(file.content), spawnPid) else old(file.content)
    {
      running := false;
      if spawnPid > 0 {
        file.ClearPidIfMatches(spawnPid);
      }
    }

    /** Takes the events that are ready; stops at an exit, which is taken too. */
    method Drain(ready: nat) returns (exited: bool)
      requires ready <= |queue|
      modifies this`queue
      ensures exited <==> ProcessExited in old(queue)[..ready]
      ensures !exited ==> queue == old(queue)[ready..]
    {
      var i := 0;
      while i < ready
        invariant i <= ready && queue == old(queue)[i..]
        invariant ProcessExited !in old(queue)[..i]
      {
        var event := queue[0];
        queue := queue[1..];
        assert old(queue)[..ready][i] == event;
        assert old(queue)[..i + 1] == old(queue)[..i] + [event];
        if event.ProcessExited? {
          return true;
        }
        i := i + 1;
      }
      exited := false;
    }

    method Account(report: Event, now: int)
      requires report.Report?
      modifies this`lastReportedCost, this`lastReportedTurns, file
      ensures lastReportedCost == report.cost && lastReportedTurns == report.turns
      ensures file.content
           == AccountedIn(old(file.content), report.sessionId, Delta(report.cost, old(lastReportedCost)),
                          TurnsDelta(report.turns, old(lastReportedTurns)), now)
    {
      var cost := if report.cost > lastReportedCost then report.cost - lastReportedCost else 0.0;
      var turns := if report.turns > lastReportedTurns then report.turns - lastReportedTurns else 0;
      lastReportedCost, lastReportedTurns := report.cost, report.turns;
      if file.content.None? {
        return;
      }
      var state := file.content.value;
      if state.config.persistent && report.sessionId != "" {
        if state.sessionId != report.sessionId {
          state := state.(sessionStart := Some(now), sessionCost := 0.0, sessionTurns := 0);
        }
        state := state.(sessionId := report.sessionId);
      }
      state := state.(totalCost := state.totalCost + cost, totalTurns := state.totalTurns + turns);
      state := state.(sessionCost := state.sessionCost + cost, sessionTurns := state.sessionTurns + turns);
      file.content := Some(state);
    }

    /** Collects what trails the report and accounts for it. */
    method Finish(report: Event, tally: Tally, sent: seq<string>, arrived: nat, now: int) returns (result: TurnResult)
      requires report.Report? && tally.toolUses <= U32_MAX && Concat(sent) == tally.text
      modifies this, file
      ensures running == old(running)
      ensures var n := LeadingTexts(old(queue), Available(old(queue), arrived));
              result == ResultOf(WithTrailing(tally, old(queue)[..n]), report)
      ensures Concat(progress) == result.text && queue == LeftAfter(old(queue), arrived)
      ensures lastReportedCost == report.cost && lastReportedTurns == report.turns
      ensures file.content
           == AccountedIn(old(file.content), report.sessionId, Delta(report.cost, old(lastReportedCost)),
                          TurnsDelta(report.turns, old(lastReportedTurns)), now)
    {
      var ready := Available(queue, arrived);
      var n, whole, all := ReadTrailing(queue, ready, tally, sent);
      progress := all;
      queue := if n < ready then queue[n + 1..] else queue[n..];
      Account(report, now);
      result := ResultOf(whole, report);
    }

    /**
     * `stale` events wait in the channel when the task is sent, and `arrived` events are there when the
     * report has been read. `queue` holds everything the process will still send.
     */
    method SendTask(stale: nat, arrived: nat, max: Option<nat>, now: int) returns (r: Outcome)
      requires stale <= |queue|
      modifies this, file
      ensures r == OutcomeOf(old(queue), stale, arrived, max)
      ensures r.Done? ==>
                && Concat(progress) == r.result.text && queue == Remaining(old(queue), stale, arrived, max)
                && lastReportedCost == r.result.cost && lastReportedTurns == r.result.turns
                && file.content
                   == AccountedIn(old(file.content), r.result.sessionId, Delta(r.result.cost, old(lastReportedCost)),
                                  TurnsDelta(r.result.turns, old(lastReportedTurns)), now)
      ensures !r.Done? ==>
                lastReportedCost == old(lastReportedCost) && lastReportedTurns == old(lastReportedTurns)
      ensures running == (old(running) && !r.TurnLimit?)
      ensures !r.Done? ==>
                file.content == if r.TurnLimit? && spawnPid > 0 then PidCleared(old(file.content), spawnPid)
                                else old(file.content)
    {
      var exited := Drain(stale);
      if exited {
        return ExitedBetweenTurns;
      }
      ghost var all := queue;
      var k, tally, sent := ReadTexts(queue, max);
      EndIsUnique(all, max, k);
      progress := sent;
      if k == |queue| {
        queue := [];
        return ChannelClosed;
      }
      var event := queue[k];
      queue := queue[k + 1..];
      match event
      case TextBlock(_, _, _) =>
        LimitReached(all, max, k);
        Kill();
        r := TurnLimit(max.value, tally.turns + 1);
      case ProcessExited =>
        r := ExitedMidTask;
      case Report(_, _, _) =>
        var result := Finish(event, tally, sent, arrived, now);
        r := Done(result);
    }
  }
}
