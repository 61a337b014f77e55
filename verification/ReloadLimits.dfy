/** Evicted sub-agents stay evicted; what reloads leave alone; when a lost bundle comes back. */
module ReloadLimits {
  import opened Sequences
  import opened Wrappers
  import opened Components
  import opened ConfigReload
  import opened ReloadRuns

  // ----- Sub-agents that vanish from the file

  lemma {:induction false} RemovedAre(agents: seq<SubAgent>, kept: set<string>)
    ensures Elements(RemovedAgents(agents, kept)) == AgentNames(agents) - kept
  {
    if agents != [] {
      RemovedAre(agents[1..], kept);
      assert agents == [agents[0]] + agents[1..];
      assert AgentNames(agents) == {agents[0].name} + AgentNames(agents[1..]);
      var head := if agents[0].name !in kept then [agents[0].name] else [];
      assert RemovedAgents(agents, kept) == head + RemovedAgents(agents[1..], kept);
      assert Elements(RemovedAgents(agents, kept)) == Elements(head) + Elements(RemovedAgents(agents[1..], kept));
    }
  }

  /** A sub-agent that vanishes always takes the branch that restarts everything and evicts it. */
  lemma RemovalRestartsAll(def: AgentDef, s: State, w: Wake, name: string)
    requires Noticed(s, w) && w.loaded.Success? && s.lastCfg.Some?
    requires name in AgentNames(s.lastCfg.value.agents) - AgentNames(w.loaded.value.agents)
    ensures MustRestartAll(s.lastCfg, w.loaded.value)
    ensures name !in Step(def, s, w).pool.stateFiles
    ensures HeldHandles(s.held) <= Step(def, s, w).pool.aborted
  {
    var cfg := w.loaded.value;
    RemovedAre(s.lastCfg.value.agents, AgentNames(cfg.agents));
    NamesOfPrefix(cfg.agents, Reached(cfg, w.failAt));
  }

  lemma NamesOfPrefix(agents: seq<SubAgent>, n: nat)
    requires n <= |agents|
    ensures AgentNames(agents[..n]) <= AgentNames(agents)
  {
  }

  function ConfiguredNames(cfg: Option<UserConfig>): set<string> {
    match cfg
    case Some(c) => AgentNames(c.agents)
    case None => {}
  }

  /** Apart from files that belong to others, only configured sub-agents have a state file. */
  ghost predicate Evicting(s: State, foreign: set<string>) {
    s.pool.stateFiles <= foreign + ConfiguredNames(s.lastCfg)
  }

  lemma StepEvicts(def: AgentDef, s: State, w: Wake, foreign: set<string>)
    requires Evicting(s, foreign)
    ensures Evicting(Step(def, s, w), foreign)
  {
    if Noticed(s, w) && w.loaded.Success? {
      var cfg := w.loaded.value;
      NamesOfPrefix(cfg.agents, Reached(cfg, w.failAt));
      if s.lastCfg.Some? {
        RemovedAre(s.lastCfg.value.agents, AgentNames(cfg.agents));
      }
    }
  }

  /** Over every run, failed respawns included, no state file of a removed sub-agent is left. */
  lemma {:induction false} RunEvicts(def: AgentDef, s: State, wakes: seq<Wake>, foreign: set<string>)
    requires Evicting(s, foreign)
    ensures Evicting(Run(def, s, wakes), foreign)
    decreases |wakes|
  {
    if wakes != [] {
      RunEvicts(def, s, wakes[..|wakes| - 1], foreign);
      StepEvicts(def, Run(def, s, wakes[..|wakes| - 1]), wakes[|wakes| - 1], foreign);
    }
  }

  /** The names that stand for others' state files are not names of sub-agents. */
  ghost predicate Apart(foreign: set<string>, cfg: Option<UserConfig>) {
    foreign !! ConfiguredNames(cfg)
  }

  lemma StepFiles(def: AgentDef, s: State, w: Wake, foreign: set<string>)
    requires s.pool.stateFiles == foreign + ConfiguredNames(s.lastCfg) && !RespawnFails(s, w)
    requires Apart(foreign, s.lastCfg) && (w.loaded.Success? ==> Apart(foreign, Some(w.loaded.value)))
    ensures var after := Step(def, s, w);
            after.pool.stateFiles == foreign + ConfiguredNames(after.lastCfg) && Apart(foreign, after.lastCfg)
  {
    if Noticed(s, w) && w.loaded.Success? && MustRestartAll(s.lastCfg, w.loaded.value) && s.lastCfg.Some? {
      RemovedAre(s.lastCfg.value.agents, AgentNames(w.loaded.value.agents));
    }
  }

  /**
   * While respawns succeed, the state files are those of the sub-agents of the last accepted file and
   * those that belong to others, all of them.
   */
  lemma {:induction false} FilesFollowConfig(def: AgentDef, s: State, wakes: seq<Wake>, foreign: set<string>)
    requires s.pool.stateFiles == foreign + ConfiguredNames(s.lastCfg) && RespawnsSucceed(def, s, wakes)
    requires Apart(foreign, s.lastCfg)
    requires forall w | w in wakes && w.loaded.Success? :: Apart(foreign, Some(w.loaded.value))
    ensures var after := Run(def, s, wakes);
            after.pool.stateFiles == foreign + ConfiguredNames(after.lastCfg) && Apart(foreign, after.lastCfg)
    decreases |wakes|
  {
    if wakes != [] {
      var before, last := wakes[..|wakes| - 1], wakes[|wakes| - 1];
      RespawnsSucceedBefore(def, s, wakes);
      assert forall w | w in before :: w in wakes;
      FilesFollowConfig(def, s, before, foreign);
      StepFiles(def, Run(def, s, before), last, foreign);
    }
  }

  // ----- What an iteration leaves alone

  /** A failed load changes no component and keeps the accepted configuration. */
  lemma FailedLoadKeeps(def: AgentDef, s: State, w: Wake)
    requires w.loaded.Failure?
    ensures var after := Step(def, s, w);
            && after.pool == s.pool && after.held == s.held && after.lastCfg == s.lastCfg
            && after.reloadedAt == s.reloadedAt
            && after.reloadError == if Noticed(s, w) then Some(w.loaded.error) else s.reloadError
  {
  }

  lemma AbortedBy(def: AgentDef, s: State, w: Wake)
    requires Noticed(s, w) && w.loaded.Success?
    ensures Step(def, s, w).pool.aborted
         == s.pool.aborted
            + if MustRestartAll(s.lastCfg, w.loaded.value) then HeldHandles(s.held)
              else if AdaptersDiffer(s.lastCfg, w.loaded.value) then Elements(s.held.adapters)
              else if SchedulesDiffer(s.lastCfg, w.loaded.value) then Single(s.held.schedule) + Single(s.held.reminder)
              else {}
  {
  }

  /**
   * Which components an accepted file restarts: held adapters exactly when their sections or the
   * whole bundle must be, and likewise the schedules; sub-agents only with the whole bundle.
   */
  lemma RestartsExactly(def: AgentDef, s: State, w: Wake)
    requires Sound(s) && Noticed(s, w) && w.loaded.Success?
    ensures var cfg, aborted := w.loaded.value, Step(def, s, w).pool.aborted;
            var all := MustRestartAll(s.lastCfg, cfg);
            && (forall h | h in s.held.adapters :: h in aborted <==> AdaptersDiffer(s.lastCfg, cfg) || all)
            && (forall h | h in Single(s.held.schedule) + Single(s.held.reminder) ::
                  h in aborted <==> SchedulesDiffer(s.lastCfg, cfg) || all)
            && (forall h | h in Single(s.held.config) :: h in aborted <==> all)
            && (forall h | h in s.held.subAgents :: h in aborted <==> all)
  {
    AbortedBy(def, s, w);
  }

  // ----- A configuration without changes restarts nothing

  predicate Repeats(w: Wake, cfg: UserConfig) {
    w.loaded.Failure? || w.loaded.value == cfg
  }

  /**
   * While the file reads as the configuration accepted last, no wake restarts or recovers anything,
   * triggered or not: components spawned from another configuration, or lost, stay as they are.
   */
  lemma {:induction false} UnchangedFileRestartsNothing(def: AgentDef, s: State, wakes: seq<Wake>)
    requires s.lastCfg.Some? && forall i | 0 <= i < |wakes| :: Repeats(wakes[i], s.lastCfg.value)
    ensures var after := Run(def, s, wakes);
            after.pool == s.pool && after.held == s.held && after.lastCfg == s.lastCfg
    decreases |wakes|
  {
    if wakes != [] {
      var before := wakes[..|wakes| - 1];
      assert forall i | 0 <= i < |before| :: before[i] == wakes[i];
      UnchangedFileRestartsNothing(def, s, before);
      assert Repeats(wakes[|wakes| - 1], s.lastCfg.value);
    }
  }

  /** An explicit trigger on the same file reports success over a bundle that was lost. */
  lemma RetriggerReportsSuccess(def: AgentDef, s: State, w: Wake)
    requires s.held == Nothing && s.lastCfg.Some? && w.triggered && w.loaded == Result.Success(s.lastCfg.value)
    ensures var after := Step(def, s, w);
            after.held == Nothing && after.reloadError == None && after.reloadedAt == Some(w.now)
  {
  }

  /** A failed respawn loses the bundle although its configuration counts as accepted. */
  lemma FailedRespawnLosesBundle(def: AgentDef, s: State, w: Wake)
    requires RespawnFails(s, w)
    ensures var after := Step(def, s, w);
            && after.held == Nothing && after.lastCfg == Some(w.loaded.value)
            && after.reloadError == Some(Respawn) && after.reloadedAt == s.reloadedAt
  {
  }

  /** After the bundle was lost, an accepted file restores it exactly when it forces a full restart. */
  lemma RecoversIff(def: AgentDef, s: State, w: Wake)
    requires Sound(s) && s.held == Nothing && s.lastCfg.Some? && Noticed(s, w) && w.loaded.Success?
    ensures Sound(Step(def, s, w))
    ensures RunsWith(def, Step(def, s, w), w.loaded.value)
       <==> (MustRestartAll(s.lastCfg, w.loaded.value) && !RespawnFails(s, w))
  {
    StepConserves(def, s, w);
    var cfg := w.loaded.value;
    var c := Changes(s.lastCfg, cfg);
    if MustRestartAll(s.lastCfg, cfg) {
      var seen := s.(lastModified := w.mtime, lastDirMtime := w.dirMtime, lastCfg := Some(cfg));
      FullRestartFollows(def, seen, cfg, c.removedSubAgents, w);
    }
  }

  // ----- The start of a run

  function Started(def: AgentDef, cfg: UserConfig, files: set<string>, mtime: Option<int>, dirMtime: Option<int>)
    : State
  {
    var empty := Pool([], {}, {}, files);
    State(ComponentsSpawned(empty, def, cfg, None), FullBundle(empty, def, cfg), mtime, dirMtime, Some(cfg), None, None)
  }

  function BeforeStart(files: set<string>, mtime: Option<int>, dirMtime: Option<int>): State {
    State(Pool([], {}, {}, files), Nothing, mtime, dirMtime, None, None, None)
  }

  lemma StartIsRestart(def: AgentDef, cfg: UserConfig, files: set<string>, w: Wake)
    requires w.failAt.None?
    ensures var s := Started(def, cfg, files, w.mtime, w.dirMtime);
            var full := FullRestart(def, BeforeStart(files, w.mtime, w.dirMtime), cfg, [], w);
            full.pool == s.pool && full.held == s.held
  {
    var empty := BeforeStart(files, w.mtime, w.dirMtime);
    assert Evicted(AllAborted(empty.pool, Nothing), []) == empty.pool;
  }

  /** The watcher starts from components spawned from the configuration it also loads itself. */
  lemma StartFollows(def: AgentDef, cfg: UserConfig, files: set<string>, mtime: Option<int>, dirMtime: Option<int>)
    ensures var s := Started(def, cfg, files, mtime, dirMtime);
            FollowsConfig(def, s) && LeakedIn(s) == {} && Evicting(s, files)
  {
    var w := Wake(true, mtime, dirMtime, Result.Success(cfg), None, 0);
    StartIsRestart(def, cfg, files, w);
    FullRestartKeeps(def, BeforeStart(files, mtime, dirMtime), cfg, [], w);
    FullRestartFollows(def, BeforeStart(files, mtime, dirMtime), cfg, [], w);
    NamesOfPrefix(cfg.agents, |cfg.agents|);
  }

  // ----- Settings that sub-agents inherit

  /** One worker for each sub-agent of the file, in order, with the settings all of them inherit. */
  ghost predicate Inherit(tasks: seq<Task>, cfg: UserConfig) {
    && |tasks| == |cfg.agents|
    && forall i | 0 <= i < |tasks| :: tasks[i] == SubAgentWorker(cfg.agents[i], cfg.shared)
  }

  lemma SameWorkersIff(tasks: seq<Task>, before: UserConfig, cfg: UserConfig)
    requires before.agents == cfg.agents
    requires Inherit(tasks, before)
    ensures Inherit(tasks, cfg) <==> (before.shared == cfg.shared || cfg.agents == [])
  {
    if cfg.agents != [] {
      assert tasks[0] == SubAgentWorker(cfg.agents[0], before.shared);
    }
  }

  lemma WorkersStay(def: AgentDef, s: State, w: Wake)
    requires Sound(s) && Sound(Step(def, s, w)) && Noticed(s, w) && w.loaded.Success?
    requires !MustRestartAll(s.lastCfg, w.loaded.value)
    ensures TasksOf(Step(def, s, w).pool, Step(def, s, w).held.subAgents) == TasksOf(s.pool, s.held.subAgents)
  {
    TasksGrow(s.pool, AdapterTasks(def, w.loaded.value), s.held.subAgents);
    TasksGrow(s.pool, [ScheduleWatcher, ReminderRunner], s.held.subAgents);
  }

  /**
   * Sub-agents also run with settings of the whole file, which the classifier does not compare: from
   * workers that have the last accepted settings, an accepted file gives workers that have its own
   * exactly when those settings are the same, nobody inherits them, or everything is restarted.
   */
  lemma InheritedSettingsFollowIff(def: AgentDef, s: State, w: Wake)
    requires Sound(s) && s.lastCfg.Some? && Noticed(s, w) && w.loaded.Success?
    requires Inherit(TasksOf(s.pool, s.held.subAgents), s.lastCfg.value) && !RespawnFails(s, w)
    ensures Sound(Step(def, s, w))
    ensures var before, cfg, after := s.lastCfg.value, w.loaded.value, Step(def, s, w);
            Inherit(TasksOf(after.pool, after.held.subAgents), cfg)
            <==> (cfg.shared == before.shared || cfg.agents == [] || MustRestartAll(s.lastCfg, cfg))
  {
    StepConserves(def, s, w);
    var cfg := w.loaded.value;
    var c := Changes(s.lastCfg, cfg);
    if MustRestartAll(s.lastCfg, cfg) {
      var seen := s.(lastModified := w.mtime, lastDirMtime := w.dirMtime, lastCfg := Some(cfg));
      FullRestartFollows(def, seen, cfg, c.removedSubAgents, w);
    } else {
      WorkersStay(def, s, w);
      SameWorkersIff(TasksOf(s.pool, s.held.subAgents), s.lastCfg.value, cfg);
    }
  }
}
