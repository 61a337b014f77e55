/** What runs of the reload watcher keep, and what a failed respawn loses. */
module ReloadRuns {
  import opened Sequences
  import opened Wrappers
  import opened Components
  import opened ConfigReload

  // ----- Conservation: every task is held, aborted or leaked

  predicate IsAdapter(t: Task) {
    t.TelegramAdapter? || t.DiscordAdapter?
  }

  ghost predicate Points(pool: Pool, h: Option<nat>, t: Task) {
    h.Some? ==> h.value < |pool.tasks| && pool.tasks[h.value] == t
  }

  ghost predicate AreAdapters(pool: Pool, handles: seq<nat>) {
    forall i | 0 <= i < |handles| :: handles[i] < |pool.tasks| && IsAdapter(pool.tasks[handles[i]])
  }

  ghost predicate AreWorkers(pool: Pool, handles: seq<nat>) {
    forall i | 0 <= i < |handles| :: handles[i] < |pool.tasks| && pool.tasks[handles[i]].SubAgentWorker?
  }

  /** Handles point to tasks of their own kind, and each adapter handle has its own token. */
  ghost predicate Kinded(pool: Pool, held: Bundle) {
    && held.tokens == held.adapters
    && AreAdapters(pool, held.adapters)
    && Points(pool, held.schedule, ScheduleWatcher)
    && Points(pool, held.config, ConfigWatcher)
    && Points(pool, held.reminder, ReminderRunner)
    && AreWorkers(pool, held.subAgents)
  }

  /** No held task is aborted, and the aborted adapters are those that were asked to stop first. */
  ghost predicate Ledger(pool: Pool, held: Bundle) {
    && Kinded(pool, held)
    && HeldHandles(held) !! pool.aborted
    && (forall h | h in pool.aborted :: h < |pool.tasks|)
    && (forall h | h in pool.cancelled :: h in pool.aborted)
    && (forall h | h in pool.aborted :: h in pool.cancelled <==> IsAdapter(pool.tasks[h]))
  }

  /** The tasks that still run although nothing holds a handle to them. */
  ghost function Leaked(pool: Pool, held: Bundle): set<nat> {
    set h: nat | h < |pool.tasks| && h !in HeldHandles(held) && h !in pool.aborted
  }

  lemma AbortAdaptersKeeps(pool: Pool, held: Bundle)
    requires Ledger(pool, held)
    ensures Ledger(AdaptersAborted(pool, held), WithoutAdapters(held))
    ensures Leaked(AdaptersAborted(pool, held), WithoutAdapters(held)) == Leaked(pool, held)
  {
  }

  lemma AbortSchedulesKeeps(pool: Pool, held: Bundle)
    requires Ledger(pool, held)
    ensures Ledger(SchedulesAborted(pool, held), WithoutSchedules(held))
    ensures Leaked(SchedulesAborted(pool, held), WithoutSchedules(held)) == Leaked(pool, held)
  {
  }

  lemma AbortAllKeeps(pool: Pool, held: Bundle)
    requires Ledger(pool, held)
    ensures Ledger(AllAborted(pool, held), Nothing)
    ensures Leaked(AllAborted(pool, held), Nothing) == Leaked(pool, held)
  {
  }

  /** Tasks that are spawned and then held add nothing to the leaked ones. */
  lemma SpawnHeldKeeps(pool: Pool, held: Bundle, tasks: seq<Task>, after: Bundle)
    requires Ledger(pool, held) && Kinded(SpawnTasks(pool, tasks), after)
    requires HeldHandles(after) == HeldHandles(held) + Elements(Fresh(pool, |tasks|))
    ensures Ledger(SpawnTasks(pool, tasks), after)
    ensures Leaked(SpawnTasks(pool, tasks), after) == Leaked(pool, held)
  {
    var grown := SpawnTasks(pool, tasks);
    assert forall h: nat | h < |pool.tasks| :: grown.tasks[h] == pool.tasks[h];
    forall h: nat | |pool.tasks| <= h < |grown.tasks| ensures h in Fresh(pool, |tasks|) {
      assert Fresh(pool, |tasks|)[h - |pool.tasks|] == h;
    }
  }

  /** Tasks that are spawned and not held are leaked, all of them. */
  lemma SpawnDroppedLeaks(pool: Pool, held: Bundle, tasks: seq<Task>)
    requires Ledger(pool, held)
    ensures Ledger(SpawnTasks(pool, tasks), held)
    ensures Leaked(SpawnTasks(pool, tasks), held) == Leaked(pool, held) + Elements(Fresh(pool, |tasks|))
  {
    var grown := SpawnTasks(pool, tasks);
    assert forall h: nat | h < |pool.tasks| :: grown.tasks[h] == pool.tasks[h];
    forall h: nat | |pool.tasks| <= h < |grown.tasks| ensures h in Fresh(pool, |tasks|) {
      assert Fresh(pool, |tasks|)[h - |pool.tasks|] == h;
    }
  }

  lemma AdaptersSpawnedKeeps(def: AgentDef, cfg: UserConfig, pool: Pool, held: Bundle)
    requires Ledger(pool, held) && held.adapters == []
    ensures Ledger(AdaptersSpawned(pool, def, cfg), WithAdapters(held, pool, def, cfg))
    ensures Leaked(AdaptersSpawned(pool, def, cfg), WithAdapters(held, pool, def, cfg)) == Leaked(pool, held)
  {
    var tasks, after := AdapterTasks(def, cfg), WithAdapters(held, pool, def, cfg);
    assert after.adapters == Fresh(pool, |tasks|);
    assert AreAdapters(SpawnTasks(pool, tasks), after.adapters) by {
      AdapterTasksAreAdapters(def, cfg);
    }
    SpawnHeldKeeps(pool, held, tasks, after);
  }

  lemma AdapterTasksAreAdapters(def: AgentDef, cfg: UserConfig)
    ensures forall i | 0 <= i < |AdapterTasks(def, cfg)| :: IsAdapter(AdapterTasks(def, cfg)[i])
  {
  }

  lemma SchedulesSpawnedKeeps(pool: Pool, held: Bundle)
    requires Ledger(pool, held) && held.schedule == held.reminder == None
    ensures Ledger(SchedulesSpawned(pool), WithSchedules(held, pool))
    ensures Leaked(SchedulesSpawned(pool), WithSchedules(held, pool)) == Leaked(pool, held)
  {
    var tasks, after := [ScheduleWatcher, ReminderRunner], WithSchedules(held, pool);
    assert Fresh(pool, 2) == [|pool.tasks|, |pool.tasks| + 1];
    assert Kinded(SpawnTasks(pool, tasks), after);
    SpawnHeldKeeps(pool, held, tasks, after);
  }

  // ----- The tasks a bundle holds

  ghost predicate InPool(pool: Pool, handles: seq<nat>) {
    forall i | 0 <= i < |handles| :: handles[i] < |pool.tasks|
  }

  ghost function TasksOf(pool: Pool, handles: seq<nat>): seq<Task>
    requires InPool(pool, handles)
  {
    seq(|handles|, i requires 0 <= i < |handles| => pool.tasks[handles[i]])
  }

  /** Handles of consecutive tasks, the tasks being `part` in `all`. */
  lemma ConsecutiveTasks(pool: Pool, all: seq<Task>, at: nat, part: seq<Task>, handles: seq<nat>)
    requires at + |part| <= |all| && all[at..at + |part|] == part
    requires |handles| == |part| && forall i | 0 <= i < |handles| :: handles[i] == |pool.tasks| + at + i
    ensures InPool(SpawnTasks(pool, all), handles) && TasksOf(SpawnTasks(pool, all), handles) == part
  {
    forall i | 0 <= i < |handles| ensures SpawnTasks(pool, all).tasks[|pool.tasks| + at + i] == part[i] {
      assert all[at..at + |part|][i] == all[at + i];
    }
  }

  lemma FullParts(def: AgentDef, cfg: UserConfig)
    ensures var all, a := FullTasks(def, cfg, |cfg.agents|), |AdapterTasks(def, cfg)|;
            && |all| == a + 3 + |cfg.agents|
            && all[..a] == AdapterTasks(def, cfg)
            && all[a] == ScheduleWatcher && all[a + 1] == ConfigWatcher && all[a + 2] == ReminderRunner
            && all[a + 3..] == SubAgentTasks(cfg)
  {
    assert SubAgentTasks(cfg)[..|cfg.agents|] == SubAgentTasks(cfg);
  }

  lemma FullSpawnTasks(pool: Pool, def: AgentDef, cfg: UserConfig)
    ensures var after, held := SpawnTasks(pool, FullTasks(def, cfg, |cfg.agents|)), FullBundle(pool, def, cfg);
            && InPool(after, held.adapters) && TasksOf(after, held.adapters) == AdapterTasks(def, cfg)
            && InPool(after, held.subAgents) && TasksOf(after, held.subAgents) == SubAgentTasks(cfg)
  {
    FullParts(def, cfg);
    var all, held := FullTasks(def, cfg, |cfg.agents|), FullBundle(pool, def, cfg);
    var a := |AdapterTasks(def, cfg)|;
    ConsecutiveTasks(pool, all, 0, AdapterTasks(def, cfg), held.adapters);
    ConsecutiveTasks(pool, all, a + 3, SubAgentTasks(cfg), held.subAgents);
  }

  lemma FullSpawnWatchers(pool: Pool, def: AgentDef, cfg: UserConfig)
    ensures var after, held := SpawnTasks(pool, FullTasks(def, cfg, |cfg.agents|)), FullBundle(pool, def, cfg);
            && Points(after, held.schedule, ScheduleWatcher)
            && Points(after, held.config, ConfigWatcher)
            && Points(after, held.reminder, ReminderRunner)
  {
    FullParts(def, cfg);
  }

  lemma HoldsAdapters(pool: Pool, handles: seq<nat>, def: AgentDef, cfg: UserConfig)
    requires InPool(pool, handles) && TasksOf(pool, handles) == AdapterTasks(def, cfg)
    ensures AreAdapters(pool, handles)
  {
    AdapterTasksAreAdapters(def, cfg);
    assert forall i | 0 <= i < |handles| :: TasksOf(pool, handles)[i] == pool.tasks[handles[i]];
  }

  lemma HoldsWorkers(pool: Pool, handles: seq<nat>, cfg: UserConfig)
    requires InPool(pool, handles) && TasksOf(pool, handles) == SubAgentTasks(cfg)
    ensures AreWorkers(pool, handles)
  {
    assert forall i | 0 <= i < |handles| :: TasksOf(pool, handles)[i] == pool.tasks[handles[i]];
  }

  /** A completed full spawn holds exactly the tasks the configuration asks for. */
  lemma {:induction false} FullSpawnHolds(pool: Pool, def: AgentDef, cfg: UserConfig)
    ensures var after, held := SpawnTasks(pool, FullTasks(def, cfg, |cfg.agents|)), FullBundle(pool, def, cfg);
            && Kinded(after, held)
            && InPool(after, held.adapters) && TasksOf(after, held.adapters) == AdapterTasks(def, cfg)
            && InPool(after, held.subAgents) && TasksOf(after, held.subAgents) == SubAgentTasks(cfg)
  {
    var after, held := SpawnTasks(pool, FullTasks(def, cfg, |cfg.agents|)), FullBundle(pool, def, cfg);
    FullSpawnTasks(pool, def, cfg);
    FullSpawnWatchers(pool, def, cfg);
    HoldsAdapters(after, held.adapters, def, cfg);
    HoldsWorkers(after, held.subAgents, cfg);
  }

  lemma FullSpawnHandles(pool: Pool, def: AgentDef, cfg: UserConfig)
    ensures HeldHandles(FullBundle(pool, def, cfg))
         == Elements(Fresh(pool, |FullTasks(def, cfg, |cfg.agents|)|))
  {
    var held, a := FullBundle(pool, def, cfg), |AdapterTasks(def, cfg)|;
    var all := Fresh(pool, |FullTasks(def, cfg, |cfg.agents|)|);
    forall h | h in HeldHandles(held) ensures h in all {
      assert all[h - |pool.tasks|] == h;
    }
    forall h | h in all ensures h in HeldHandles(held) {
      var i := h - |pool.tasks|;
      if i < a {
        assert held.adapters[i] == h;
      } else if i >= a + 3 {
        assert held.subAgents[i - a - 3] == h;
      }
    }
  }

  // ----- One iteration

  /** The wake was asked for, or a modification time is not the one recorded. */
  predicate Noticed(s: State, w: Wake) {
    w.triggered || w.mtime != s.lastModified || w.dirMtime != s.lastDirMtime
  }

  predicate AdaptersDiffer(before: Option<UserConfig>, cfg: UserConfig) {
    before.None? || before.value.telegram != cfg.telegram || before.value.discord != cfg.discord
  }

  predicate SchedulesDiffer(before: Option<UserConfig>, cfg: UserConfig) {
    before.None? || before.value.schedules != cfg.schedules
  }

  /** What forces the full restart: other sub-agents, or both other adapters and other schedules. */
  predicate MustRestartAll(before: Option<UserConfig>, cfg: UserConfig) {
    || before.None? || before.value.agents != cfg.agents
    || (AdaptersDiffer(before, cfg) && SchedulesDiffer(before, cfg))
  }

  predicate RespawnFails(s: State, w: Wake) {
    && Noticed(s, w)
    && w.loaded.Success?
    && MustRestartAll(s.lastCfg, w.loaded.value)
    && w.failAt.Some? && w.failAt.value < |w.loaded.value.agents|
  }

  lemma SameTasks(p: Pool, q: Pool, held: Bundle)
    requires p == q.(stateFiles := p.stateFiles)
    ensures Ledger(p, held) == Ledger(q, held) && Leaked(p, held) == Leaked(q, held)
  {
  }

  lemma EvictionKeeps(pool: Pool, held: Bundle, removed: seq<string>)
    requires Ledger(pool, held)
    ensures Ledger(Evicted(AllAborted(pool, held), removed), Nothing)
    ensures Leaked(Evicted(AllAborted(pool, held), removed), Nothing) == Leaked(pool, held)
  {
    AbortAllKeeps(pool, held);
    SameTasks(AllAborted(pool, held), Evicted(AllAborted(pool, held), removed), Nothing);
  }

  lemma CompletedSpawnKeeps(pool: Pool, def: AgentDef, cfg: UserConfig, failAt: Option<nat>)
    requires Ledger(pool, Nothing) && !SpawnFails(cfg, failAt)
    ensures Ledger(ComponentsSpawned(pool, def, cfg, failAt), FullBundle(pool, def, cfg))
    ensures Leaked(ComponentsSpawned(pool, def, cfg, failAt), FullBundle(pool, def, cfg)) == Leaked(pool, Nothing)
  {
    var spawned := SpawnTasks(pool, FullTasks(def, cfg, |cfg.agents|));
    SameTasks(spawned, ComponentsSpawned(pool, def, cfg, failAt), FullBundle(pool, def, cfg));
    FullSpawnHolds(pool, def, cfg);
    FullSpawnHandles(pool, def, cfg);
    assert HeldHandles(Nothing) == {};
    SpawnHeldKeeps(pool, Nothing, FullTasks(def, cfg, |cfg.agents|), FullBundle(pool, def, cfg));
  }

  /** The handles of what a respawn starts before it gives up: adapters, three watchers and `n` sub-agents. */
  ghost function Started(def: AgentDef, pool: Pool, n: nat): set<nat> {
    var adapters := (if def.telegram then 1 else 0) + (if def.discord then 1 else 0);
    Elements(Fresh(pool, adapters + 3 + n))
  }

  lemma FullTasksCount(def: AgentDef, cfg: UserConfig, n: nat)
    requires n <= |cfg.agents|
    ensures |FullTasks(def, cfg, n)| == (if def.telegram then 1 else 0) + (if def.discord then 1 else 0) + 3 + n
  {
  }

  lemma FailedSpawnLeaks(pool: Pool, def: AgentDef, cfg: UserConfig, failAt: Option<nat>)
    requires Ledger(pool, Nothing) && SpawnFails(cfg, failAt)
    ensures Ledger(ComponentsSpawned(pool, def, cfg, failAt), Nothing)
    ensures Leaked(ComponentsSpawned(pool, def, cfg, failAt), Nothing)
         == Leaked(pool, Nothing) + Started(def, pool, failAt.value)
  {
    var tasks := FullTasks(def, cfg, failAt.value);
    FullTasksCount(def, cfg, failAt.value);
    SameTasks(SpawnTasks(pool, tasks), ComponentsSpawned(pool, def, cfg, failAt), Nothing);
    SpawnDroppedLeaks(pool, Nothing, tasks);
  }

  ghost predicate Sound(s: State) {
    Ledger(s.pool, s.held)
  }

  ghost function LeakedIn(s: State): set<nat> {
    Leaked(s.pool, s.held)
  }

  lemma FullRestartKeeps(def: AgentDef, s: State, cfg: UserConfig, removed: seq<string>, w: Wake)
    requires Sound(s)
    ensures Sound(FullRestart(def, s, cfg, removed, w))
    ensures LeakedIn(FullRestart(def, s, cfg, removed, w))
         == LeakedIn(s) + if SpawnFails(cfg, w.failAt) then Started(def, s.pool, w.failAt.value) else {}
  {
    EvictionKeeps(s.pool, s.held, removed);
    var evicted := Evicted(AllAborted(s.pool, s.held), removed);
    if SpawnFails(cfg, w.failAt) {
      FailedSpawnLeaks(evicted, def, cfg, w.failAt);
      assert Started(def, evicted, w.failAt.value) == Started(def, s.pool, w.failAt.value);
    } else {
      CompletedSpawnKeeps(evicted, def, cfg, w.failAt);
    }
  }

  lemma AdapterRestartKeeps(def: AgentDef, s: State, cfg: UserConfig, after: State)
    requires Sound(s)
    requires after.pool == AdaptersSpawned(AdaptersAborted(s.pool, s.held), def, cfg)
    requires after.held == WithAdapters(WithoutAdapters(s.held), AdaptersAborted(s.pool, s.held), def, cfg)
    ensures Sound(after) && LeakedIn(after) == LeakedIn(s)
  {
    AbortAdaptersKeeps(s.pool, s.held);
    AdaptersSpawnedKeeps(def, cfg, AdaptersAborted(s.pool, s.held), WithoutAdapters(s.held));
  }

  lemma ScheduleRestartKeeps(s: State, after: State)
    requires Sound(s)
    requires after.pool == SchedulesSpawned(SchedulesAborted(s.pool, s.held))
    requires after.held == WithSchedules(WithoutSchedules(s.held), SchedulesAborted(s.pool, s.held))
    ensures Sound(after) && LeakedIn(after) == LeakedIn(s)
  {
    AbortSchedulesKeeps(s.pool, s.held);
    SchedulesSpawnedKeeps(SchedulesAborted(s.pool, s.held), WithoutSchedules(s.held));
  }

  /**
   * An iteration keeps the ledger; the tasks that leak in it are those a failed respawn had started,
   * and none when no respawn fails.
   */
  lemma StepConserves(def: AgentDef, s: State, w: Wake)
    requires Sound(s)
    ensures Sound(Step(def, s, w))
    ensures LeakedIn(Step(def, s, w))
         == LeakedIn(s) + if RespawnFails(s, w) then Started(def, s.pool, w.failAt.value) else {}
  {
    if Noticed(s, w) && w.loaded.Success? {
      var cfg := w.loaded.value;
      var c := Changes(s.lastCfg, cfg);
      if MustRestartAll(s.lastCfg, cfg) {
        var seen := s.(lastModified := w.mtime, lastDirMtime := w.dirMtime, lastCfg := Some(cfg));
        FullRestartKeeps(def, seen, cfg, c.removedSubAgents, w);
      } else if AdaptersDiffer(s.lastCfg, cfg) {
        AdapterRestartKeeps(def, s, cfg, Step(def, s, w));
      } else if SchedulesDiffer(s.lastCfg, cfg) {
        ScheduleRestartKeeps(s, Step(def, s, w));
      }
    }
  }

  // ----- Runs

  ghost predicate RespawnsSucceed(def: AgentDef, s: State, wakes: seq<Wake>) {
    forall i | 0 <= i < |wakes| :: !RespawnFails(Run(def, s, wakes[..i]), wakes[i])
  }

  lemma RespawnsSucceedBefore(def: AgentDef, s: State, wakes: seq<Wake>)
    requires wakes != []
    ensures RespawnsSucceed(def, s, wakes)
       <==> && RespawnsSucceed(def, s, wakes[..|wakes| - 1])
            && !RespawnFails(Run(def, s, wakes[..|wakes| - 1]), wakes[|wakes| - 1])
  {
    var before := wakes[..|wakes| - 1];
    assert forall i | 0 <= i < |before| :: before[..i] == wakes[..i] && before[i] == wakes[i];
  }

  lemma StartedSome(def: AgentDef, pool: Pool, n: nat)
    ensures |pool.tasks| in Started(def, pool, n)
  {
    var adapters := (if def.telegram then 1 else 0) + (if def.discord then 1 else 0);
    assert Fresh(pool, adapters + 3 + n)[0] == |pool.tasks|;
  }

  lemma StepLeaksIff(def: AgentDef, s: State, w: Wake)
    requires Sound(s)
    ensures Sound(Step(def, s, w)) && (LeakedIn(Step(def, s, w)) == {} <==> (LeakedIn(s) == {} && !RespawnFails(s, w)))
  {
    StepConserves(def, s, w);
    if RespawnFails(s, w) {
      StartedSome(def, s.pool, w.failAt.value);
    }
  }

  /**
   * Over every run each task ever spawned is held or aborted, tokens stay in step with adapters and
   * aborted adapters were cancelled first. Tasks run on unheld exactly when some respawn failed.
   */
  lemma {:induction false} NothingLeaksIff(def: AgentDef, s: State, wakes: seq<Wake>)
    requires Sound(s) && LeakedIn(s) == {}
    ensures Sound(Run(def, s, wakes))
    ensures LeakedIn(Run(def, s, wakes)) == {} <==> RespawnsSucceed(def, s, wakes)
    decreases |wakes|
  {
    if wakes != [] {
      var before, last := wakes[..|wakes| - 1], wakes[|wakes| - 1];
      NothingLeaksIff(def, s, before);
      RespawnsSucceedBefore(def, s, wakes);
      StepLeaksIff(def, Run(def, s, before), last);
    }
  }

  // ----- The running components follow the last accepted configuration

  /** The adapters run with `cfg`'s routes, the sub-agents are those of `cfg`, and every watcher runs. */
  ghost predicate RunsWith(def: AgentDef, s: State, cfg: UserConfig)
    requires Sound(s)
  {
    && TasksOf(s.pool, s.held.adapters) == AdapterTasks(def, cfg)
    && AgentsOf(TasksOf(s.pool, s.held.subAgents)) == cfg.agents
    && s.held.schedule.Some? && s.held.config.Some? && s.held.reminder.Some?
  }

  function AgentsOf(tasks: seq<Task>): seq<SubAgent>
    requires forall i | 0 <= i < |tasks| :: tasks[i].SubAgentWorker?
  {
    seq(|tasks|, i requires 0 <= i < |tasks| => tasks[i].agent)
  }

  ghost predicate FollowsConfig(def: AgentDef, s: State) {
    Sound(s) && (s.lastCfg.Some? ==> RunsWith(def, s, s.lastCfg.value))
  }

  lemma TasksGrow(pool: Pool, more: seq<Task>, handles: seq<nat>)
    requires InPool(pool, handles)
    ensures InPool(SpawnTasks(pool, more), handles)
    ensures TasksOf(SpawnTasks(pool, more), handles) == TasksOf(pool, handles)
  {
  }

  lemma TasksFresh(pool: Pool, more: seq<Task>)
    ensures InPool(SpawnTasks(pool, more), Fresh(pool, |more|))
    ensures TasksOf(SpawnTasks(pool, more), Fresh(pool, |more|)) == more
  {
  }

  lemma AgentsOfTasks(cfg: UserConfig)
    ensures AgentsOf(SubAgentTasks(cfg)) == cfg.agents
  {
  }

  lemma FullRestartFollows(def: AgentDef, s: State, cfg: UserConfig, removed: seq<string>, w: Wake)
    requires Sound(s)
    ensures Sound(FullRestart(def, s, cfg, removed, w))
    ensures !SpawnFails(cfg, w.failAt) ==>
              var after := FullRestart(def, s, cfg, removed, w);
              RunsWith(def, after, cfg) && TasksOf(after.pool, after.held.subAgents) == SubAgentTasks(cfg)
  {
    FullRestartKeeps(def, s, cfg, removed, w);
    if !SpawnFails(cfg, w.failAt) {
      var aborted := Evicted(AllAborted(s.pool, s.held), removed);
      FullSpawnHolds(aborted, def, cfg);
      AgentsOfTasks(cfg);
      var after := FullRestart(def, s, cfg, removed, w);
      var spawned := SpawnTasks(aborted, FullTasks(def, cfg, |cfg.agents|));
      assert after.pool.tasks == spawned.tasks;
      assert TasksOf(after.pool, after.held.adapters) == TasksOf(spawned, after.held.adapters);
      assert TasksOf(after.pool, after.held.subAgents) == TasksOf(spawned, after.held.subAgents);
    }
  }

  lemma AdapterRestartFollows(def: AgentDef, before: UserConfig, s: State, cfg: UserConfig, after: State)
    requires Sound(s) && RunsWith(def, s, before) && before.agents == cfg.agents
    requires after.pool == AdaptersSpawned(AdaptersAborted(s.pool, s.held), def, cfg)
    requires after.held == WithAdapters(WithoutAdapters(s.held), AdaptersAborted(s.pool, s.held), def, cfg)
    ensures Sound(after) && RunsWith(def, after, cfg)
  {
    AdapterRestartKeeps(def, s, cfg, after);
    var pool := AdaptersAborted(s.pool, s.held);
    TasksGrow(pool, AdapterTasks(def, cfg), s.held.subAgents);
    TasksFresh(pool, AdapterTasks(def, cfg));
    assert after.held.adapters == Fresh(pool, |AdapterTasks(def, cfg)|);
  }

  lemma ScheduleRestartFollows(def: AgentDef, before: UserConfig, s: State, cfg: UserConfig, after: State)
    requires Sound(s) && RunsWith(def, s, before)
    requires before.agents == cfg.agents && AdapterTasks(def, before) == AdapterTasks(def, cfg)
    requires after.pool == SchedulesSpawned(SchedulesAborted(s.pool, s.held))
    requires after.held == WithSchedules(WithoutSchedules(s.held), SchedulesAborted(s.pool, s.held))
    ensures Sound(after) && RunsWith(def, after, cfg)
  {
    ScheduleRestartKeeps(s, after);
    var pool := SchedulesAborted(s.pool, s.held);
    TasksGrow(pool, [ScheduleWatcher, ReminderRunner], s.held.subAgents);
    TasksGrow(pool, [ScheduleWatcher, ReminderRunner], s.held.adapters);
  }

  lemma StepFollows(def: AgentDef, s: State, w: Wake)
    requires FollowsConfig(def, s) && !RespawnFails(s, w)
    ensures FollowsConfig(def, Step(def, s, w))
  {
    if Noticed(s, w) && w.loaded.Success? {
      var cfg := w.loaded.value;
      if MustRestartAll(s.lastCfg, cfg) {
        var seen := s.(lastModified := w.mtime, lastDirMtime := w.dirMtime, lastCfg := Some(cfg));
        FullRestartFollows(def, seen, cfg, Changes(s.lastCfg, cfg).removedSubAgents, w);
      } else if AdaptersDiffer(s.lastCfg, cfg) {
        AdapterRestartFollows(def, s.lastCfg.value, s, cfg, Step(def, s, w));
      } else if SchedulesDiffer(s.lastCfg, cfg) {
        ScheduleRestartFollows(def, s.lastCfg.value, s, cfg, Step(def, s, w));
      }
    }
  }

  /** Whichever branches the iterations took, the live components follow the last accepted file. */
  lemma {:induction false} RunFollowsConfig(def: AgentDef, s: State, wakes: seq<Wake>)
    requires FollowsConfig(def, s) && RespawnsSucceed(def, s, wakes)
    ensures FollowsConfig(def, Run(def, s, wakes))
    decreases |wakes|
  {
    if wakes != [] {
      var before, last := wakes[..|wakes| - 1], wakes[|wakes| - 1];
      RespawnsSucceedBefore(def, s, wakes);
      RunFollowsConfig(def, s, before);
      StepFollows(def, Run(def, s, before), last);
    }
  }
}
