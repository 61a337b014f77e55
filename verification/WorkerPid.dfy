/** Which worker the stored pid names, over every run of restarts, exits and state saves. */
module WorkerPid {
  import opened Wrappers
  import opened AgentRegistry

  /**
   * A generation is the position of its `Spawn` in the run. `Clear` is the exit, kill or stop of a
   * generation, and may come at any later time. `Save` rewrites the whole file from a state that was
   * loaded after the first `from` events, with other counters but the pid as it was loaded.
   */
  datatype Event =
    | Recover(config: AgentConfig)
    | Spawn(pid: nat)
    | Clear(generation: nat)
    | Save(from: nat, totalTurns: nat, totalCost: real)
    | Remove

  function PidOf(events: seq<Event>, generation: nat): nat {
    if generation < |events| && events[generation].Spawn? then events[generation].pid else 0
  }

  function Run(c0: Option<StoredState>, events: seq<Event>): Option<StoredState>
    decreases |events|
  {
    if events == [] then c0
    else
      var before := events[..|events| - 1];
      var content := Run(c0, before);
      match events[|events| - 1]
      case Recover(config) => Some(Recovered(content, config))
      case Spawn(pid) => if pid > 0 then PidPersisted(content, pid) else content
      case Clear(g) => if PidOf(before, g) > 0 then PidCleared(content, PidOf(before, g)) else content
      case Save(from, turns, cost) =>
        if from <= |before| then Saved(Run(c0, before[..from]), content, turns, cost) else content
      case Remove => None
  }

  function Saved(loaded: Option<StoredState>, content: Option<StoredState>, turns: nat, cost: real)
    : Option<StoredState>
  {
    match loaded
    case Some(state) => Some(state.(totalTurns := turns, totalCost := cost))
    case None => content
  }

  /** The pid the file names; `None` when there is no file. */
  function StoredPid(content: Option<StoredState>): Option<nat> {
    match content
    case Some(state) => Some(state.pid)
    case None => None
  }

  ghost predicate DistinctPids(events: seq<Event>) {
    forall i, j | 0 <= i < j < |events| && events[i].Spawn? && events[j].Spawn? && events[i].pid > 0 ::
      events[i].pid != events[j].pid
  }

  /** Between the load and the write of a save nothing but other saves happened. */
  ghost predicate QuietSaves(events: seq<Event>) {
    forall j | 0 <= j < |events| && events[j].Save? :: QuietSince(events, events[j].from, j)
  }

  ghost predicate QuietSince(events: seq<Event>, from: nat, j: nat)
    requires j <= |events|
  {
    from <= j && forall k | from <= k < j :: events[k].Save?
  }

  /** An event that ends what `Spawn` number `i` stored. */
  predicate Ends(e: Event, i: nat) {
    e.Recover? || e.Remove? || (e.Spawn? && e.pid > 0) || (e.Clear? && e.generation == i)
  }

  /** Generation `i` was stored, and nothing has ended that since. */
  ghost predicate Current(c0: Option<StoredState>, events: seq<Event>, i: nat) {
    && i < |events| && events[i].Spawn? && events[i].pid > 0
    && Run(c0, events[..i]).Some?
    && forall j | i < j < |events| :: !Ends(events[j], i)
  }

  // ----- Saves with quiet windows keep the pid

  lemma PrefixIsQuiet(events: seq<Event>, n: nat)
    requires QuietSaves(events) && n <= |events|
    ensures QuietSaves(events[..n])
  {
    forall j | 0 <= j < n && events[..n][j].Save?
      ensures QuietSince(events[..n], events[..n][j].from, j)
    {
      assert QuietSince(events, events[j].from, j);
    }
  }

  lemma {:induction false} SaveKeepsPid(c0: Option<StoredState>, events: seq<Event>, j: nat)
    requires QuietSaves(events) && j < |events| && events[j].Save?
    ensures StoredPid(Run(c0, events[..j + 1])) == StoredPid(Run(c0, events[..j]))
    decreases j, 1
  {
    var from := events[j].from;
    assert QuietSince(events, from, j);
    assert events[..j + 1][..j] == events[..j];
    assert events[..j][..from] == events[..from];
    WindowKeepsPid(c0, events, from, j);
  }

  lemma {:induction false} WindowKeepsPid(c0: Option<StoredState>, events: seq<Event>, from: nat, until: nat)
    requires QuietSaves(events) && until <= |events| && QuietSince(events, from, until)
    ensures StoredPid(Run(c0, events[..until])) == StoredPid(Run(c0, events[..from]))
    decreases until, 0
  {
    if from < until {
      WindowKeepsPid(c0, events, from, until - 1);
      SaveKeepsPid(c0, events, until - 1);
    }
  }

  // ----- The stored pid is that of the current generation

  lemma CurrentGoesOn(c0: Option<StoredState>, events: seq<Event>, i: nat)
    requires events != []
    ensures var n := |events| - 1;
            Current(c0, events, i)
            <==> (if i == n then events[n].Spawn? && events[n].pid > 0 && Run(c0, events[..n]).Some?
                  else Current(c0, events[..n], i) && !Ends(events[n], i))
  {
    var n := |events| - 1;
    if i < n {
      assert events[..n][..i] == events[..i];
      assert forall j | i < j < n :: events[..n][j] == events[j];
    }
  }

  ghost predicate Names(c0: Option<StoredState>, events: seq<Event>, pid: nat) {
    exists i: nat :: Current(c0, events, i) && PidOf(events, i) == pid
  }

  /** What the last event makes of `Names`. */
  ghost predicate NamedNext(c0: Option<StoredState>, events: seq<Event>, pid: nat)
    requires events != []
  {
    var n := |events| - 1;
    match events[n]
    case Recover(_) => false
    case Remove => false
    case Save(_, _, _) => Names(c0, events[..n], pid)
    case Spawn(p) => if p > 0 then p == pid && Run(c0, events[..n]).Some? else Names(c0, events[..n], pid)
    case Clear(g) => Names(c0, events[..n], pid) && PidOf(events[..n], g) != pid
  }

  lemma NamesGoesOn(c0: Option<StoredState>, events: seq<Event>, pid: nat)
    requires events != [] && pid > 0 && DistinctPids(events)
    ensures Names(c0, events, pid) <==> NamedNext(c0, events, pid)
  {
    var n := |events| - 1;
    forall i: nat ensures Current(c0, events, i)
        <==> (if i == n then events[n].Spawn? && events[n].pid > 0 && Run(c0, events[..n]).Some?
              else Current(c0, events[..n], i) && !Ends(events[n], i))
    {
      CurrentGoesOn(c0, events, i);
    }
    assert forall i: nat | i < n :: PidOf(events, i) == PidOf(events[..n], i);
    if Names(c0, events[..n], pid) {
      var i: nat :| Current(c0, events[..n], i) && PidOf(events[..n], i) == pid;
      assert Current(c0, events, i) <==> !Ends(events[n], i);
    }
    if events[n].Spawn? && events[n].pid == pid && Run(c0, events[..n]).Some? {
      assert Current(c0, events, n) && PidOf(events, n) == pid;
    }
  }

  /** An event after which a pid that was there from the start is gone. */
  predicate Settles(e: Event) {
    e.Recover? || e.Remove? || (e.Spawn? && e.pid > 0)
  }

  ghost predicate Settled(events: seq<Event>) {
    exists j :: 0 <= j < |events| && Settles(events[j])
  }

  /** The file started out with this pid, of a process of an earlier run, and nothing was done about it. */
  ghost predicate LeftOver(c0: Option<StoredState>, events: seq<Event>, pid: nat) {
    StoredPid(c0) == Some(pid) && !Settled(events)
  }

  lemma SettledGoesOn(events: seq<Event>)
    requires events != []
    ensures Settled(events) <==> Settled(events[..|events| - 1]) || Settles(events[|events| - 1])
  {
    var n := |events| - 1;
    assert forall j | 0 <= j < n :: events[..n][j] == events[j];
  }

  lemma SpawnSettles(events: seq<Event>, g: nat)
    requires PidOf(events, g) > 0
    ensures Settled(events)
  {
    assert Settles(events[g]);
  }

  /** What the last event makes of the stored pid. */
  ghost predicate StoredNext(c0: Option<StoredState>, events: seq<Event>, pid: nat)
    requires events != []
  {
    var n := |events| - 1;
    var was := StoredPid(Run(c0, events[..n])) == Some(pid);
    match events[n]
    case Recover(_) => false
    case Remove => false
    case Save(_, _, _) => was
    case Spawn(p) => if p > 0 then p == pid && Run(c0, events[..n]).Some? else was
    case Clear(g) => was && PidOf(events[..n], g) != pid
  }

  lemma StoredGoesOn(c0: Option<StoredState>, events: seq<Event>, pid: nat)
    requires events != [] && QuietSaves(events) && pid > 0
    ensures StoredPid(Run(c0, events)) == Some(pid) <==> StoredNext(c0, events, pid)
  {
    var n := |events| - 1;
    if events[n].Save? {
      SaveKeepsPid(c0, events, n);
      assert events[..n + 1] == events;
    }
  }

  lemma DistinctBefore(events: seq<Event>, n: nat)
    requires DistinctPids(events) && n <= |events|
    ensures DistinctPids(events[..n])
  {
    assert forall i | 0 <= i < n :: events[..n][i] == events[i];
  }

  /**
   * With distinct pids the file names a worker exactly when its generation is current: stored, and
   * since then neither respawned, recovered, removed nor cleared by itself. A clear that comes late
   * from an older generation changes nothing. The only other pid it can hold is one from before the
   * run, until the first recovery, removal or spawn.
   */
  lemma {:induction false} StoredPidIsCurrent(c0: Option<StoredState>, events: seq<Event>, pid: nat)
    requires DistinctPids(events) && QuietSaves(events) && pid > 0
    ensures StoredPid(Run(c0, events)) == Some(pid) <==> Names(c0, events, pid) || LeftOver(c0, events, pid)
    decreases |events|
  {
    if events != [] {
      var n := |events| - 1;
      DistinctBefore(events, n);
      PrefixIsQuiet(events, n);
      StoredPidIsCurrent(c0, events[..n], pid);
      NamesGoesOn(c0, events, pid);
      StoredGoesOn(c0, events, pid);
      SettledGoesOn(events);
      if events[n].Clear? && PidOf(events[..n], events[n].generation) > 0 {
        SpawnSettles(events[..n], events[n].generation);
      }
    }
  }

  function Newest(events: seq<Event>): nat {
    if events == [] then 0
    else
      var last := events[|events| - 1];
      if last.Spawn? && last.pid > 0 then last.pid else Newest(events[..|events| - 1])
  }

  lemma {:induction false} CurrentIsNewest(c0: Option<StoredState>, events: seq<Event>, i: nat)
    requires Current(c0, events, i)
    ensures events[i].pid == Newest(events)
  {
    var n := |events| - 1;
    if i < n {
      CurrentGoesOn(c0, events, i);
      assert Ends(events[n], i) || events[..n][i] == events[i];
      CurrentIsNewest(c0, events[..n], i);
    }
  }

  /** The file never names an older worker, nor, once settled, a process of an earlier run. */
  lemma StoredPidIsZeroOrNewest(c0: Option<StoredState>, events: seq<Event>)
    requires DistinctPids(events) && QuietSaves(events)
    requires Settled(events) || StoredPid(c0) in {None, Some(0)}
    ensures StoredPid(Run(c0, events)) in {None, Some(0), Some(Newest(events))}
  {
    var stored := StoredPid(Run(c0, events));
    if stored.Some? && stored.value > 0 {
      StoredPidIsCurrent(c0, events, stored.value);
      var i: nat :| Current(c0, events, i) && PidOf(events, i) == stored.value;
      CurrentIsNewest(c0, events, i);
    }
  }

  /** A clear by any generation but the newest leaves the file as it is; its own leaves no pid. */
  lemma ClearsOnlyItself(c0: Option<StoredState>, events: seq<Event>, g: nat)
    requires DistinctPids(events) && QuietSaves(events) && PidOf(events, g) > 0
    ensures PidOf(events, g) != Newest(events) ==> Run(c0, events + [Clear(g)]) == Run(c0, events)
    ensures PidOf(events, g) == Newest(events) ==> StoredPid(Run(c0, events + [Clear(g)])) in {None, Some(0)}
  {
    assert (events + [Clear(g)])[..|events|] == events;
    SpawnSettles(events, g);
    StoredPidIsZeroOrNewest(c0, events);
  }

  // ----- What the assumptions are needed for

  ghost predicate EndedSince(events: seq<Event>, from: nat, i: nat) {
    exists j :: from <= j < |events| && Ends(events[j], i)
  }

  lemma CurrentSince(c0: Option<StoredState>, events: seq<Event>, from: nat, i: nat)
    requires i < from <= |events|
    ensures Current(c0, events, i) <==> Current(c0, events[..from], i) && !EndedSince(events, from, i)
  {
    assert events[..from][..i] == events[..i];
    assert forall j | 0 <= j < from :: events[..from][j] == events[j];
  }

  /** The save writes the pid that was loaded; a file that was missing then is left alone. */
  lemma SaveStoresLoaded(c0: Option<StoredState>, events: seq<Event>, from: nat, turns: nat, cost: real)
    requires from <= |events|
    ensures var after := StoredPid(Run(c0, events + [Save(from, turns, cost)]));
            after == if Run(c0, events[..from]).Some? then StoredPid(Run(c0, events[..from]))
                     else StoredPid(Run(c0, events))
  {
    assert (events + [Save(from, turns, cost)])[..|events|] == events;
  }

  /**
   * A save brings back the pid of a worker that is gone exactly when the worker was current as the state
   * was loaded and has been ended since: a window with other events in it does no harm by itself.
   */
  lemma SaveRevivesIff(c0: Option<StoredState>, events: seq<Event>, from: nat, turns: nat, cost: real, pid: nat)
    requires DistinctPids(events) && QuietSaves(events) && StoredPid(c0) in {None, Some(0)}
    requires from <= |events| && pid > 0
    ensures (StoredPid(Run(c0, events + [Save(from, turns, cost)])) == Some(pid) && !Names(c0, events, pid))
        <==> exists i: nat :: Current(c0, events[..from], i) && PidOf(events, i) == pid && EndedSince(events, from, i)
  {
    SaveStoresLoaded(c0, events, from, turns, cost);
    DistinctBefore(events, from);
    PrefixIsQuiet(events, from);
    StoredPidIsCurrent(c0, events[..from], pid);
    StoredPidIsCurrent(c0, events, pid);
    forall i: nat | i < from ensures PidOf(events[..from], i) == PidOf(events, i)
                                  && (Current(c0, events, i)
                                      <==> Current(c0, events[..from], i) && !EndedSince(events, from, i)) {
      CurrentSince(c0, events, from, i);
    }
    if i: nat :| Current(c0, events[..from], i) && PidOf(events, i) == pid && EndedSince(events, from, i) {
      assert Names(c0, events[..from], pid);
      assert forall k: nat | PidOf(events, k) == pid :: k == i;
    }
  }

  /** A clear takes the stored pid away exactly when it is the pid of the clearing generation. */
  lemma ClearTakesIff(c0: Option<StoredState>, events: seq<Event>, g: nat, pid: nat)
    requires StoredPid(Run(c0, events)) == Some(pid) && pid > 0
    ensures StoredPid(Run(c0, events + [Clear(g)])) == Some(pid) <==> PidOf(events, g) != pid
  {
    assert (events + [Clear(g)])[..|events|] == events;
  }


  /** A pid used again: the clear of the older generation wipes the newer one's. */
  lemma ReusedPidIsCleared(config: AgentConfig)
    ensures var events := [Recover(config), Spawn(7), Spawn(7), Clear(1)];
            StoredPid(Run(None, events)) == Some(0) && Current(None, events, 2)
  {
    var events := [Recover(config), Spawn(7), Spawn(7), Clear(1)];
    assert events[..1] == [Recover(config)];
    assert events[..2] == [Recover(config), Spawn(7)];
    assert events[..3][..2] == events[..2] && events[..2][..1] == events[..1];
    assert Run(None, events[..0]) == None;
    assert events[..1][..0] == events[..0];
    assert StoredPid(Run(None, events[..1])) == Some(0);
    assert StoredPid(Run(None, events[..2])) == Some(7);
    assert StoredPid(Run(None, events[..3])) == Some(7);
  }

  /** A save that spans the exit of the worker brings back the pid of a process that is gone. */
  lemma SpanningSaveRevivesPid(config: AgentConfig, turns: nat, cost: real)
    ensures var events := [Recover(config), Spawn(7), Clear(1), Save(2, turns, cost)];
            StoredPid(Run(None, events)) == Some(7) && !Names(None, events, 7)
  {
    var events := [Recover(config), Spawn(7), Clear(1), Save(2, turns, cost)];
    assert events[..1] == [Recover(config)];
    assert events[..2] == [Recover(config), Spawn(7)];
    assert events[..3][..2] == events[..2] && events[..2][..1] == events[..1];
    assert events[..1][..0] == events[..0];
    assert StoredPid(Run(None, events[..1])) == Some(0);
    assert StoredPid(Run(None, events[..2])) == Some(7);
    assert Ends(events[2], 1);
  }

  // ----- What restarts leave alone

  predicate KeepsFigures(e: Event) {
    e.Recover? || e.Spawn? || e.Clear?
  }

  /** No restart, start or exit of a worker touches the session or the counters of an existing file. */
  lemma {:induction false} FiguresSurvive(state: StoredState, events: seq<Event>)
    requires forall e | e in events :: KeepsFigures(e)
    ensures Run(Some(state), events).Some? && SameFigures(Run(Some(state), events).value, state)
    decreases |events|
  {
    if events != [] {
      assert KeepsFigures(events[|events| - 1]);
      FiguresSurvive(state, events[..|events| - 1]);
    }
  }

  /** A whole-state save leaves its own counters, and everything else as it was when it was loaded. */
  lemma SaveOverwrites(c0: Option<StoredState>, events: seq<Event>, from: nat, turns: nat, cost: real)
    requires from <= |events| && Run(c0, events[..from]).Some?
    ensures var after, loaded := Run(c0, events + [Save(from, turns, cost)]), Run(c0, events[..from]).value;
            && after.Some? && after.value.totalTurns == turns && after.value.totalCost == cost
            && after.value.pid == loaded.pid && after.value.sessionId == loaded.sessionId
            && after.value.config == loaded.config
  {
    assert (events + [Save(from, turns, cost)])[..|events|] == events;
  }
}
