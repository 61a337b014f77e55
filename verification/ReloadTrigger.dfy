/** The reload signal: one stored permit, a watcher that waits for it or a timer, a file edited at any moment. */
module ReloadTrigger {
  /** Where the watcher stands in its loop. */
  datatype Phase =
    | Entering                  // about to wait
    | Waiting                   // registered, no permit taken
    | Notified                  // handed a permit, not yet running again
    | Awake(triggered: bool)    // about to read the modification times
    | Checked                   // times recorded, about to load
    | Loading                   // reading the file
    | Restarting                // acting on what was loaded

  /**
   * `version` counts edits and stands for content and modification times together; `seen` is the
   * version whose times were recorded last and `loaded` the one read by the last load. The
   * remaining fields only keep the history: a count of steps, when the last trigger and the last
   * load began, and how many triggers and triggered wakes there were.
   */
  datatype State = State(
    permit: bool,
    phase: Phase,
    version: nat,
    seen: nat,
    loaded: nat,
    now: nat,
    lastTrigger: nat,
    lastLoad: nat,
    triggers: nat,
    wakes: nat)

  /** Steps of the watcher, of callers and of editors interleave freely. */
  datatype Event = Trigger | Edit | Enter | Resume | Timeout | Stat | BeginLoad | EndLoad | Finish

  /** A trigger may have come before the watcher first waits; editors may have been at work. */
  predicate Initial(s: State) {
    && s.phase.Entering? && s.seen <= s.loaded <= s.version
    && s.now == 1 && s.lastTrigger == s.lastLoad == 0
    && s.triggers == (if s.permit then 1 else 0) && s.wakes == 0
  }

  predicate Enabled(s: State, e: Event) {
    match e
    case Trigger => true
    case Edit => true
    case Enter => s.phase.Entering?
    case Resume => s.phase.Notified?
    case Timeout => s.phase.Waiting? || s.phase.Notified?
    case Stat => s.phase.Awake?
    case BeginLoad => s.phase.Checked?
    case EndLoad => s.phase.Loading?
    case Finish => s.phase.Restarting?
  }

  predicate OfWatcher(e: Event) {
    !e.Trigger? && !e.Edit?
  }

  /** A permit goes to a registered waiter, or is stored; a second one is not stored. */
  function NotifyOne(s: State): State {
    if s.phase.Waiting? then s.(phase := Notified) else s.(permit := true)
  }

  function Act(s: State, e: Event): State
    requires Enabled(s, e)
  {
    match e
    case Trigger => NotifyOne(s).(lastTrigger := s.now, triggers := s.triggers + 1)
    case Edit => s.(version := s.version + 1)
    case Enter =>
      if s.permit then s.(permit := false, phase := Awake(true), wakes := s.wakes + 1)
      else s.(phase := Waiting)
    case Resume => s.(phase := Awake(true), wakes := s.wakes + 1)
    case Timeout =>
      // a waiter dropped after it was notified hands the permit back
      s.(phase := Awake(false), permit := s.permit || s.phase.Notified?)
    case Stat =>
      if !s.phase.triggered && s.version == s.seen then s.(phase := Entering)
      else s.(phase := Checked, seen := s.version)
    case BeginLoad => s.(phase := Loading, lastLoad := s.now)
    case EndLoad => s.(phase := Restarting, loaded := s.version)
    case Finish => s.(phase := Entering)
  }

  function Step(s: State, e: Event): State
    requires Enabled(s, e)
  {
    Act(s, e).(now := s.now + 1)
  }

  ghost predicate IsRun(run: seq<State>, events: seq<Event>) {
    && |run| == |events| + 1
    && forall i | 0 <= i < |events| :: Enabled(run[i], events[i]) && run[i + 1] == Step(run[i], events[i])
  }

  // ----- No trigger and no edit is lost

  /** There was a trigger, and no load has begun since the last one. */
  predicate Unserved(s: State) {
    s.triggers > 0 && s.lastTrigger >= s.lastLoad
  }

  predicate WillLoad(s: State) {
    s.permit || s.phase.Notified? || s.phase == Awake(true) || s.phase.Checked?
  }

  predicate Idle(s: State) {
    !s.phase.Checked? && !s.phase.Loading?
  }

  ghost predicate Inv(s: State) {
    && s.lastTrigger < s.now && s.lastLoad < s.now
    && (s.lastTrigger == s.lastLoad ==> s.lastLoad == 0)
    && (s.triggers == 0 ==> s.lastTrigger == 0)
    && (Unserved(s) ==> WillLoad(s))
    && s.seen <= s.version && s.loaded <= s.version
    && (Idle(s) ==> s.seen <= s.loaded)
    && (s.phase.Waiting? ==> !s.permit)
    && s.wakes + (if s.permit then 1 else 0) + (if s.phase.Notified? then 1 else 0) <= s.triggers
  }

  lemma StepKeepsInv(s: State, e: Event)
    requires Inv(s) && Enabled(s, e)
    ensures Inv(Step(s, e))
  {
  }

  lemma {:induction false} RunKeepsInv(run: seq<State>, events: seq<Event>)
    requires IsRun(run, events) && Inv(run[0])
    ensures Inv(run[|events|])
    decreases |events|
  {
    if events != [] {
      var n := |events| - 1;
      RunKeepsInv(run[..|events|], events[..n]);
      StepKeepsInv(run[n], events[n]);
    }
  }

  // ----- What the history fields record

  lemma StepIsLast(run: seq<State>, events: seq<Event>)
    requires IsRun(run, events) && events != []
    ensures var n := |events| - 1;
            && IsRun(run[..n + 1], events[..n]) && Enabled(run[n], events[n]) && run[n + 1] == Step(run[n], events[n])
            && multiset(events) == multiset(events[..n]) + multiset{events[n]}
  {
    assert events == events[..|events| - 1] + [events[|events| - 1]];
  }

  /** Every trigger, every edit and every step is counted once. */
  lemma {:induction false} HistoryCounts(run: seq<State>, events: seq<Event>)
    requires IsRun(run, events)
    ensures run[|events|].triggers == run[0].triggers + multiset(events)[Trigger]
    ensures run[|events|].version == run[0].version + multiset(events)[Edit]
    ensures run[|events|].now == run[0].now + |events|
    decreases |events|
  {
    if events != [] {
      StepIsLast(run, events);
      HistoryCounts(run[..|events|], events[..|events| - 1]);
    }
  }

  /** How often the watcher woke up for a trigger. */
  function Woken(run: seq<State>): nat {
    if |run| < 2 then 0
    else
      var n := |run| - 1;
      Woken(run[..n]) + if run[n].phase == Awake(true) && run[n - 1].phase != Awake(true) then 1 else 0
  }

  lemma {:induction false} WakesAreCounted(run: seq<State>, events: seq<Event>)
    requires IsRun(run, events)
    ensures run[|events|].wakes == run[0].wakes + Woken(run)
    decreases |events|
  {
    if events != [] {
      StepIsLast(run, events);
      WakesAreCounted(run[..|events|], events[..|events| - 1]);
    }
  }

  lemma {:induction false} LastTriggerIs(run: seq<State>, events: seq<Event>, i: nat)
    requires IsRun(run, events) && i < |events| && events[i] == Trigger
    ensures run[|events|].lastTrigger >= run[0].now + i && run[|events|].triggers > 0
    decreases |events|
  {
    var n := |events| - 1;
    StepIsLast(run, events);
    if i < n {
      LastTriggerIs(run[..n + 1], events[..n], i);
    }
    HistoryCounts(run[..n + 1], events[..n]);
  }

  /** The last load recorded is the one from before, or it began with one of the events. */
  ghost predicate LoadBegan(run: seq<State>, events: seq<Event>, at: nat) {
    exists j :: 0 <= j < |events| && events[j] == BeginLoad && |run| > 0 && at == run[0].now + j
  }

  lemma {:induction false} LastLoadIs(run: seq<State>, events: seq<Event>)
    requires IsRun(run, events)
    ensures run[|events|].lastLoad == run[0].lastLoad || LoadBegan(run, events, run[|events|].lastLoad)
    decreases |events|
  {
    if events != [] {
      var n := |events| - 1;
      StepIsLast(run, events);
      LastLoadIs(run[..n + 1], events[..n]);
      HistoryCounts(run[..n + 1], events[..n]);
      if events[n] == BeginLoad {
        assert LoadBegan(run, events, run[0].now + n);
      } else if j :| 0 <= j < n && events[..n][j] == BeginLoad && run[n].lastLoad == run[0].now + j {
        assert events[j] == BeginLoad;
      }
    }
  }

  /**
   * In every interleaving, when the watcher is blocked no permit is stored and every trigger has been
   * followed by the begin of a load, one from before the watcher first waited included: triggers may
   * coalesce, and are never lost.
   */
  lemma BlockedMeansServed(run: seq<State>, events: seq<Event>)
    requires IsRun(run, events) && Initial(run[0]) && run[|events|].phase.Waiting?
    ensures !run[|events|].permit
    ensures run[0].permit ==> BeginLoad in events
    ensures forall i | 0 <= i < |events| && events[i] == Trigger :: BeginLoad in events[i..]
  {
    RunKeepsInv(run, events);
    HistoryCounts(run, events);
    LastLoadIs(run, events);
    forall i | 0 <= i < |events| && events[i] == Trigger ensures BeginLoad in events[i..] {
      LastTriggerIs(run, events, i);
      var j :| 0 <= j < |events| && events[j] == BeginLoad && run[|events|].lastLoad == run[0].now + j;
      assert events[i..][j - i] == BeginLoad;
    }
  }

  /** When the recorded times are those of the file, what was loaded last is the file as it is. */
  lemma UnchangedTimesMeanCurrent(run: seq<State>, events: seq<Event>)
    requires IsRun(run, events) && Initial(run[0])
    requires Idle(run[|events|]) && run[|events|].seen == run[|events|].version
    ensures run[|events|].loaded == run[|events|].version
  {
    RunKeepsInv(run, events);
  }

  /** No trigger wakes the watcher twice. */
  lemma WakesAreTriggered(run: seq<State>, events: seq<Event>)
    requires IsRun(run, events) && Initial(run[0])
    ensures Woken(run) <= multiset(events)[Trigger] + if run[0].permit then 1 else 0
  {
    RunKeepsInv(run, events);
    HistoryCounts(run, events);
    WakesAreCounted(run, events);
  }

  // ----- Nothing is loaded without a reason

  /** What may still make the watcher load: triggers not yet answered, and an edit not yet seen. */
  function Pending(s: State): nat {
    (if s.permit then 1 else 0)
    + (if s.phase.Notified? || s.phase == Awake(true) || s.phase.Checked? then 1 else 0)
    + if s.seen != s.version then 1 else 0
  }

  lemma PendingStep(s: State, e: Event)
    requires Enabled(s, e)
    ensures Pending(Step(s, e)) + (if e == BeginLoad then 1 else 0)
         <= Pending(s) + if e == Trigger || e == Edit then 1 else 0
  {
  }

  lemma {:induction false} LoadsAreBounded(run: seq<State>, events: seq<Event>)
    requires IsRun(run, events)
    ensures multiset(events)[BeginLoad] + Pending(run[|events|])
         <= multiset(events)[Trigger] + multiset(events)[Edit] + Pending(run[0])
    decreases |events|
  {
    if events != [] {
      StepIsLast(run, events);
      LoadsAreBounded(run[..|events|], events[..|events| - 1]);
      PendingStep(run[|events| - 1], events[|events| - 1]);
    }
  }

  /**
   * Each load has its own trigger or edit, but for one each that came before the watcher first waited:
   * polls that find nothing changed load nothing.
   */
  lemma LoadsAreCaused(run: seq<State>, events: seq<Event>)
    requires IsRun(run, events) && Initial(run[0])
    ensures multiset(events)[BeginLoad]
         <= multiset(events)[Trigger] + multiset(events)[Edit]
            + (if run[0].permit then 1 else 0) + (if run[0].seen != run[0].version then 1 else 0)
  {
    LoadsAreBounded(run, events);
  }

  // ----- Triggers and edits are served within a few steps of the watcher

  /** The events that are the watcher's own, which are all but triggers and edits. */
  function OwnSteps(events: seq<Event>): int {
    |events| - multiset(events)[Trigger] - multiset(events)[Edit]
  }

  lemma OwnStepsFirst(events: seq<Event>)
    requires events != []
    ensures OwnSteps(events) == OwnSteps(events[1..]) + if OfWatcher(events[0]) then 1 else 0
  {
    assert events == [events[0]] + events[1..];
  }

  /** The most steps the watcher takes before it begins a load, once a trigger is unserved. */
  function StepsToLoad(s: State): nat {
    match s.phase
    case Checked => 0
    case Awake(triggered) => if triggered then 1 else 3
    case Entering => 2
    case Restarting => 3
    case Notified => 4
    case Loading => 4
    case Waiting => 4
  }

  /** The most steps before a load ends, once an edit is not loaded. */
  function StepsToLoaded(s: State): nat {
    match s.phase
    case Loading => 0
    case Checked => 1
    case Awake(_) => 2
    case Notified => 3
    case Waiting => 3
    case Entering => 4
    case Restarting => 5
  }

  lemma UnservedStep(s: State, e: Event)
    requires Inv(s) && Unserved(s) && Enabled(s, e) && e != BeginLoad
    ensures Unserved(Step(s, e))
    ensures StepsToLoad(Step(s, e)) + (if OfWatcher(e) then 1 else 0) <= StepsToLoad(s)
  {
  }

  lemma UnloadedStep(s: State, e: Event)
    requires Inv(s) && s.loaded < s.version && Enabled(s, e) && e != EndLoad
    ensures Step(s, e).loaded < Step(s, e).version
    ensures StepsToLoaded(Step(s, e)) + (if OfWatcher(e) then 1 else 0) <= StepsToLoaded(s)
  {
  }

  lemma {:induction false} UnservedIsServed(run: seq<State>, events: seq<Event>)
    requires IsRun(run, events) && Inv(run[0]) && Unserved(run[0]) && BeginLoad !in events
    ensures OwnSteps(events) <= StepsToLoad(run[0]) <= 4
    decreases |events|
  {
    if events != [] {
      UnservedStep(run[0], events[0]);
      StepKeepsInv(run[0], events[0]);
      OwnStepsFirst(events);
      UnservedIsServed(run[1..], events[1..]);
    }
  }

  lemma {:induction false} UnloadedIsLoaded(run: seq<State>, events: seq<Event>)
    requires IsRun(run, events) && Inv(run[0]) && run[0].loaded < run[0].version && EndLoad !in events
    ensures OwnSteps(events) <= StepsToLoaded(run[0]) <= 5
    decreases |events|
  {
    if events != [] {
      UnloadedStep(run[0], events[0]);
      StepKeepsInv(run[0], events[0]);
      OwnStepsFirst(events);
      UnloadedIsLoaded(run[1..], events[1..]);
    }
  }

  lemma RestOfRun(run: seq<State>, events: seq<Event>, i: nat)
    requires IsRun(run, events) && Initial(run[0]) && i < |events|
    ensures IsRun(run[i + 1..], events[i + 1..]) && Inv(run[i]) && Inv(run[i + 1])
    ensures Enabled(run[i], events[i]) && run[i + 1] == Step(run[i], events[i])
  {
    RunKeepsInv(run[..i + 1], events[..i]);
    StepKeepsInv(run[i], events[i]);
  }

  /**
   * After any trigger the watcher takes at most four steps before it begins a load, however many triggers
   * and edits come in between; and it can always take one.
   */
  lemma TriggersAreServed(run: seq<State>, events: seq<Event>, i: nat)
    requires IsRun(run, events) && Initial(run[0]) && i < |events| && events[i] == Trigger
    requires BeginLoad !in events[i + 1..]
    ensures OwnSteps(events[i + 1..]) <= 4
    ensures exists e :: OfWatcher(e) && Enabled(run[|events|], e)
  {
    RestOfRun(run, events, i);
    UnservedIsServed(run[i + 1..], events[i + 1..]);
    WatcherCanMove(run[|events|]);
  }

  /** After any edit the watcher takes at most five steps before a load has read it, with or without a trigger. */
  lemma EditsAreLoaded(run: seq<State>, events: seq<Event>, i: nat)
    requires IsRun(run, events) && Initial(run[0]) && i < |events| && events[i] == Edit
    requires EndLoad !in events[i + 1..]
    ensures OwnSteps(events[i + 1..]) <= 5
  {
    RestOfRun(run, events, i);
    UnloadedIsLoaded(run[i + 1..], events[i + 1..]);
  }

  lemma WatcherCanMove(s: State)
    ensures exists e :: OfWatcher(e) && Enabled(s, e)
  {
    var e := match s.phase
      case Entering => Enter
      case Waiting => Timeout
      case Notified => Resume
      case Awake(_) => Stat
      case Checked => BeginLoad
      case Loading => EndLoad
      case Restarting => Finish;
    assert OfWatcher(e) && Enabled(s, e);
  }
}
