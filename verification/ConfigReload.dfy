/** Hot reload: the diff classifier, the spawn routines and the watcher loop. */
module ConfigReload {
  import opened Sequences
  import opened Wrappers
  import opened Components

  // ----- The diff classifier

  datatype Changeset = Changeset(
    adaptersChanged: bool,
    schedulesChanged: bool,
    subAgentsChanged: bool,
    systemPromptOnly: bool,
    removedSubAgents: seq<string>)

  function RemovedAgents(agents: seq<SubAgent>, kept: set<string>): seq<string> {
    if agents == [] then []
    else (if agents[0].name !in kept then [agents[0].name] else []) + RemovedAgents(agents[1..], kept)
  }

  function ClassifyConfigChange(before: UserConfig, after: UserConfig): Changeset {
    var adapters := before.telegram != after.telegram || before.discord != after.discord;
    var schedules := before.schedules != after.schedules;
    var subAgents := before.agents != after.agents;
    var prompt := before.systemPrompt != after.systemPrompt;
    Changeset(adapters, schedules, subAgents, prompt && !adapters && !schedules && !subAgents,
              RemovedAgents(before.agents, AgentNames(after.agents)))
  }

  function Changes(before: Option<UserConfig>, after: UserConfig): Changeset {
    match before
    case Some(cfg) => ClassifyConfigChange(cfg, after)
    case None => Changeset(true, true, true, false, [])
  }

  // ----- One iteration of the watcher, on values

  /**
   * What the outside world answers in one iteration: why the watcher woke, the modification times it
   * reads, what loading the file gives, and the first sub-agent whose state cannot be written.
   */
  datatype Wake = Wake(
    triggered: bool,
    mtime: Option<int>,
    dirMtime: Option<int>,
    loaded: Result<UserConfig, string>,
    failAt: Option<nat>,
    now: int)

  datatype State = State(
    pool: Pool,
    held: Bundle,
    lastModified: Option<int>,
    lastDirMtime: Option<int>,
    lastCfg: Option<UserConfig>,
    reloadedAt: Option<int>,
    reloadError: Option<string>)

  const Respawn := "respawn failed"

  function AdaptersSpawned(pool: Pool, def: AgentDef, cfg: UserConfig): Pool {
    SpawnTasks(pool, AdapterTasks(def, cfg))
  }

  function WithAdapters(held: Bundle, pool: Pool, def: AgentDef, cfg: UserConfig): Bundle {
    var handles := Fresh(pool, |AdapterTasks(def, cfg)|);
    held.(adapters := held.adapters + handles, tokens := held.tokens + handles)
  }

  function SchedulesSpawned(pool: Pool): Pool {
    SpawnTasks(pool, [ScheduleWatcher, ReminderRunner])
  }

  function WithSchedules(held: Bundle, pool: Pool): Bundle {
    held.(schedule := Some(|pool.tasks|), reminder := Some(|pool.tasks| + 1))
  }

  /** The tasks of a full spawn that gets as far as `n` sub-agents. */
  function FullTasks(def: AgentDef, cfg: UserConfig, n: nat): seq<Task>
    requires n <= |cfg.agents|
  {
    AdapterTasks(def, cfg) + [ScheduleWatcher, ConfigWatcher, ReminderRunner] + SubAgentTasks(cfg)[..n]
  }

  function Reached(cfg: UserConfig, failAt: Option<nat>): (n: nat)
    ensures n <= |cfg.agents|
  {
    match failAt
    case Some(i) => if i < |cfg.agents| then i else |cfg.agents|
    case None => |cfg.agents|
  }

  predicate SpawnFails(cfg: UserConfig, failAt: Option<nat>) {
    failAt.Some? && failAt.value < |cfg.agents|
  }

  function ComponentsSpawned(pool: Pool, def: AgentDef, cfg: UserConfig, failAt: Option<nat>): Pool {
    var n := Reached(cfg, failAt);
    SpawnTasks(pool, FullTasks(def, cfg, n)).(stateFiles := pool.stateFiles + AgentNames(cfg.agents[..n]))
  }

  function FullBundle(pool: Pool, def: AgentDef, cfg: UserConfig): Bundle {
    var a := |AdapterTasks(def, cfg)|;
    var base := |pool.tasks| + a;
    Bundle(Fresh(pool, a), Fresh(pool, a), Some(base), Some(base + 1), Some(base + 2),
           seq(|cfg.agents|, i requires 0 <= i < |cfg.agents| => base + 3 + i))
  }

  function Evicted(pool: Pool, removed: seq<string>): Pool {
    pool.(stateFiles := pool.stateFiles - Elements(removed))
  }

  function Succeeded(s: State, now: int): State {
    s.(reloadedAt := Some(now), reloadError := None)
  }

  function FullRestart(def: AgentDef, s: State, cfg: UserConfig, removed: seq<string>, w: Wake): State {
    var pool := Evicted(AllAborted(s.pool, s.held), removed);
    var after := s.(pool := ComponentsSpawned(pool, def, cfg, w.failAt), held := Nothing);
    if SpawnFails(cfg, w.failAt) then after.(reloadError := Some(Respawn))
    else Succeeded(after.(held := FullBundle(pool, def, cfg)), w.now)
  }

  function Restart(def: AgentDef, s: State, cfg: UserConfig, c: Changeset, w: Wake): State {
    if c.systemPromptOnly then Succeeded(s, w.now)
    else if !c.adaptersChanged && !c.schedulesChanged && !c.subAgentsChanged then Succeeded(s, w.now)
    else if c.adaptersChanged && !c.schedulesChanged && !c.subAgentsChanged then
      var pool := AdaptersAborted(s.pool, s.held);
      Succeeded(s.(pool := AdaptersSpawned(pool, def, cfg),
                 held := WithAdapters(WithoutAdapters(s.held), pool, def, cfg)), w.now)
    else if c.schedulesChanged && !c.adaptersChanged && !c.subAgentsChanged then
      var pool := SchedulesAborted(s.pool, s.held);
      Succeeded(s.(pool := SchedulesSpawned(pool), held := WithSchedules(WithoutSchedules(s.held), pool)), w.now)
    else FullRestart(def, s, cfg, c.removedSubAgents, w)
  }

  predicate Ignored(s: State, w: Wake) {
    !w.triggered && w.mtime == s.lastModified && w.dirMtime == s.lastDirMtime
  }

  function Step(def: AgentDef, s: State, w: Wake): State {
    if Ignored(s, w) then s
    else
      var seen := s.(lastModified := w.mtime, lastDirMtime := w.dirMtime);
      match w.loaded
      case Failure(e) => seen.(reloadError := Some(e))
      case Success(cfg) => Restart(def, seen.(lastCfg := Some(cfg)), cfg, Changes(s.lastCfg, cfg), w)
  }

  function Run(def: AgentDef, s: State, wakes: seq<Wake>): State {
    if wakes == [] then s
    else Step(def, Run(def, s, wakes[..|wakes| - 1]), wakes[|wakes| - 1])
  }

  // ----- The spawn routines

  method SpawnAdapters(def: AgentDef, cfg: UserConfig, rt: Runtime, components: AgentComponents)
    modifies rt`tasks, components`adapterHandles, components`adapterCancelTokens
    ensures rt.View() == AdaptersSpawned(old(rt.View()), def, cfg)
    ensures components.View() == WithAdapters(old(components.View()), old(rt.View()), def, cfg)
  {
    var adapters := AdapterTasks(def, cfg);
    for i := 0 to |adapters|
      invariant rt.View() == SpawnTasks(old(rt.View()), adapters[..i])
      invariant components.adapterHandles == old(components.adapterHandles) + Fresh(old(rt.View()), i)
      invariant components.adapterCancelTokens == old(components.adapterCancelTokens) + Fresh(old(rt.View()), i)
    {
      var handle := rt.Spawn(adapters[i]);
      components.adapterHandles := components.adapterHandles + [handle];
      components.adapterCancelTokens := components.adapterCancelTokens + [handle];
      assert adapters[..i + 1] == adapters[..i] + [adapters[i]];
      assert Fresh(old(rt.View()), i + 1) == Fresh(old(rt.View()), i) + [handle];
    }
    assert adapters[..|adapters|] == adapters;
  }

  method SpawnSchedules(rt: Runtime, components: AgentComponents)
    modifies rt`tasks, components`scheduleWatcher, components`reminderRunner
    ensures rt.View() == SchedulesSpawned(old(rt.View()))
    ensures components.View() == WithSchedules(old(components.View()), old(rt.View()))
  {
    var schedule := rt.Spawn(ScheduleWatcher);
    components.scheduleWatcher := Some(schedule);
    var reminder := rt.Spawn(ReminderRunner);
    components.reminderRunner := Some(reminder);
  }

  /** Spawns the sub-agents in turn; stops at the first whose state cannot be written. */
  method SpawnSubAgents(cfg: UserConfig, failAt: Option<nat>, rt: Runtime, components: AgentComponents)
    returns (ok: bool)
    modifies rt`tasks, rt`stateFiles, components`subAgentHandles
    ensures ok == !SpawnFails(cfg, failAt)
    ensures var n := Reached(cfg, failAt);
            && rt.View() == SpawnTasks(old(rt.View()), SubAgentTasks(cfg)[..n])
                            .(stateFiles := old(rt.stateFiles) + AgentNames(cfg.agents[..n]))
            && components.subAgentHandles == old(components.subAgentHandles) + Fresh(old(rt.View()), n)
  {
    var i := 0;
    while i < |cfg.agents|
      invariant i <= Reached(cfg, failAt)
      invariant rt.View() == SpawnTasks(old(rt.View()), SubAgentTasks(cfg)[..i])
                             .(stateFiles := old(rt.stateFiles) + AgentNames(cfg.agents[..i]))
      invariant components.subAgentHandles == old(components.subAgentHandles) + Fresh(old(rt.View()), i)
    {
      if failAt == Some(i) {
        return false;
      }
      assert cfg.agents[..i + 1] == cfg.agents[..i] + [cfg.agents[i]];
      assert SubAgentTasks(cfg)[..i + 1] == SubAgentTasks(cfg)[..i] + [SubAgentTasks(cfg)[i]];
      rt.stateFiles := rt.stateFiles + {cfg.agents[i].name};
      var handle := rt.Spawn(SubAgentWorker(cfg.agents[i], cfg.shared));
      components.subAgentHandles := components.subAgentHandles + [handle];
      assert Fresh(old(rt.View()), i + 1) == Fresh(old(rt.View()), i) + [handle];
      i := i + 1;
    }
    ok := true;
  }

  method SpawnWatchers(rt: Runtime, components: AgentComponents)
    modifies rt`tasks, components`scheduleWatcher, components`configWatcher, components`reminderRunner
    ensures rt.View() == SpawnTasks(old(rt.View()), [ScheduleWatcher, ConfigWatcher, ReminderRunner])
    ensures components.View() == old(components.View()).(
              schedule := Some(|old(rt.tasks)|),
              config := Some(|old(rt.tasks)| + 1),
              reminder := Some(|old(rt.tasks)| + 2))
  {
    var schedule := rt.Spawn(ScheduleWatcher);
    components.scheduleWatcher := Some(schedule);
    var config := rt.Spawn(ConfigWatcher);
    components.configWatcher := Some(config);
    var reminder := rt.Spawn(ReminderRunner);
    components.reminderRunner := Some(reminder);
  }

  lemma SpawnedInTurn(pool: Pool, def: AgentDef, cfg: UserConfig, n: nat)
    requires n <= |cfg.agents|
    ensures SpawnTasks(SpawnTasks(AdaptersSpawned(pool, def, cfg), [ScheduleWatcher, ConfigWatcher, ReminderRunner]),
                       SubAgentTasks(cfg)[..n])
         == SpawnTasks(pool, FullTasks(def, cfg, n))
  {
  }

  lemma BundleInTurn(pool: Pool, before: Pool, def: AgentDef, cfg: UserConfig)
    requires |before.tasks| == |pool.tasks| + |AdapterTasks(def, cfg)| + 3
    ensures Nothing.adapters + Fresh(pool, |AdapterTasks(def, cfg)|) == FullBundle(pool, def, cfg).adapters
    ensures [] + Fresh(before, |cfg.agents|) == FullBundle(pool, def, cfg).subAgents
  {
  }

  /** `None` is the error return: the handles gathered so far are dropped, their tasks run on. */
  method SpawnComponents(def: AgentDef, cfg: UserConfig, failAt: Option<nat>, rt: Runtime)
    returns (r: Option<AgentComponents>)
    modifies rt`tasks, rt`stateFiles
    ensures rt.View() == ComponentsSpawned(old(rt.View()), def, cfg, failAt)
    ensures r.None? == SpawnFails(cfg, failAt)
    ensures r.Some? ==> fresh(r.value) && r.value.View() == FullBundle(old(rt.View()), def, cfg)
  {
    var components := new AgentComponents();
    SpawnAdapters(def, cfg, rt, components);
    SpawnWatchers(rt, components);
    ghost var before := rt.View();
    var ok := SpawnSubAgents(cfg, failAt, rt, components);
    SpawnedInTurn(old(rt.View()), def, cfg, Reached(cfg, failAt));
    if !ok {
      return None;
    }
    BundleInTurn(old(rt.View()), before, def, cfg);
    r := Some(components);
  }

  // ----- The watcher

  class Watcher {
    const def: AgentDef
    const rt: Runtime
    var components: AgentComponents
    var lastModified: Option<int>
    var lastDirMtime: Option<int>
    var lastUserCfg: Option<UserConfig>
    var lastReloadAt: Option<int>
    var lastReloadError: Option<string>

    ghost function View(): State
      reads this, components, rt
    {
      State(rt.View(), components.View(), lastModified, lastDirMtime, lastUserCfg, lastReloadAt, lastReloadError)
    }

    /** The modification times and the configuration are those read when the watcher starts. */
    constructor (def: AgentDef, rt: Runtime, components: AgentComponents,
                 mtime: Option<int>, dirMtime: Option<int>, cfg: Option<UserConfig>)
      ensures View() == State(rt.View(), components.View(), mtime, dirMtime, cfg, None, None)
      ensures this.def == def && this.rt == rt && this.components == components
    {
      this.def, this.rt, this.components := def, rt, components;
      lastModified, lastDirMtime, lastUserCfg := mtime, dirMtime, cfg;
      lastReloadAt, lastReloadError := None, None;
    }

    method RecordSuccess(now: int)
      modifies this`lastReloadAt, this`lastReloadError
      ensures View() == Succeeded(old(View()), now)
    {
      lastReloadAt, lastReloadError := Some(now), None;
    }

    method RecordFailure(error: string)
      modifies this`lastReloadError
      ensures View() == old(View()).(reloadError := Some(error))
    {
      lastReloadError := Some(error);
    }

    method RestartAll(cfg: UserConfig, removed: seq<string>, w: Wake)
      modifies this, components, rt
      ensures components == old(components) || fresh(components)
      ensures View() == FullRestart(def, old(View()), cfg, removed, w)
    {
      ghost var aborted := AllAborted(rt.View(), components.View());
      components.AbortAll(rt);
      for i := 0 to |removed|
        invariant components == old(components)
        invariant View() == old(View()).(pool := Evicted(aborted, removed[..i]), held := Nothing)
      {
        rt.stateFiles := rt.stateFiles - {removed[i]};
        assert removed[..i + 1] == removed[..i] + [removed[i]];
      }
      assert removed[..|removed|] == removed;
      var spawned := SpawnComponents(def, cfg, w.failAt, rt);
      match spawned
      case Some(replacement) =>
        components := replacement;
        RecordSuccess(w.now);
      case None =>
        RecordFailure(Respawn);
    }

    method RestartChanged(cfg: UserConfig, c: Changeset, w: Wake)
      modifies this, components, rt
      ensures components == old(components) || fresh(components)
      ensures View() == Restart(def, old(View()), cfg, c, w)
    {
      if c.systemPromptOnly {
        RecordSuccess(w.now);
        return;
      }
      if !c.adaptersChanged && !c.schedulesChanged && !c.subAgentsChanged {
        RecordSuccess(w.now);
        return;
      }
      if c.adaptersChanged && !c.schedulesChanged && !c.subAgentsChanged {
        components.AbortAdapters(rt);
        SpawnAdapters(def, cfg, rt, components);
        RecordSuccess(w.now);
        return;
      }
      if c.schedulesChanged && !c.adaptersChanged && !c.subAgentsChanged {
        components.AbortSchedules(rt);
        SpawnSchedules(rt, components);
        RecordSuccess(w.now);
        return;
      }
      RestartAll(cfg, c.removedSubAgents, w);
    }

    method Iterate(w: Wake)
      modifies this, components, rt
      ensures components == old(components) || fresh(components)
      ensures View() == Step(def, old(View()), w)
    {
      if !w.triggered && w.mtime == lastModified && w.dirMtime == lastDirMtime {
        return;
      }
      lastModified, lastDirMtime := w.mtime, w.dirMtime;
      match w.loaded
      case Failure(e) =>
        RecordFailure(e);
      case Success(cfg) =>
        var changes := Changes(lastUserCfg, cfg);
        lastUserCfg := Some(cfg);
        RestartChanged(cfg, changes, w);
    }

    method WatchAndReload(wakes: seq<Wake>)
      modifies this, components, rt
      ensures View() == Run(def, old(View()), wakes)
    {
      for i := 0 to |wakes|
        invariant components == old(components) || fresh(components)
        invariant View() == Run(def, old(View()), wakes[..i])
      {
        Iterate(wakes[i]);
        assert wakes[..i + 1][..i] == wakes[..i];
      }
      assert wakes[..|wakes|] == wakes;
    }
  }
}
