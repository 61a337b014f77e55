/** The restartable components of one agent: what is spawned, held, cancelled and aborted. */
module Components {
  import opened Sequences
  import opened Wrappers

  /** A part of the configuration that is only ever compared as a whole. */
  datatype Section = Section(text: string)

  datatype Routes = Routes(routes: seq<Section>)

  datatype SubAgent = SubAgent(name: string, rest: Section)

  /** `shared` stands for the settings every sub-agent inherits, `rest` for the remaining fields. */
  datatype UserConfig = UserConfig(
    systemPrompt: Section,
    telegram: Option<Routes>,
    discord: Option<Routes>,
    schedules: Section,
    agents: seq<SubAgent>,
    shared: Section,
    rest: Section)

  /** Which adapters the workspace enables for the agent. */
  datatype AgentDef = AgentDef(telegram: bool, discord: bool)

  datatype Task =
    | TelegramAdapter(routes: seq<Section>)
    | DiscordAdapter(routes: seq<Section>)
    | ScheduleWatcher
    | ConfigWatcher
    | ReminderRunner
    | SubAgentWorker(agent: SubAgent, shared: Section)

  // ----- What a configuration asks for

  function RoutesOf(r: Option<Routes>): seq<Section> {
    match r
    case Some(routes) => routes.routes
    case None => []
  }

  function AdapterTasks(def: AgentDef, cfg: UserConfig): seq<Task> {
    (if def.telegram then [TelegramAdapter(RoutesOf(cfg.telegram))] else [])
    + (if def.discord then [DiscordAdapter(RoutesOf(cfg.discord))] else [])
  }

  function SubAgentTasks(cfg: UserConfig): seq<Task> {
    seq(|cfg.agents|, i requires 0 <= i < |cfg.agents| => SubAgentWorker(cfg.agents[i], cfg.shared))
  }

  function AgentNames(agents: seq<SubAgent>): set<string> {
    set a | a in agents :: a.name
  }

  // ----- Tasks and handles; a handle is the position of its task among all tasks ever spawned

  datatype Pool = Pool(tasks: seq<Task>, aborted: set<nat>, cancelled: set<nat>, stateFiles: set<string>)

  datatype Bundle = Bundle(
    adapters: seq<nat>,
    tokens: seq<nat>,
    schedule: Option<nat>,
    config: Option<nat>,
    reminder: Option<nat>,
    subAgents: seq<nat>)

  const Nothing := Bundle([], [], None, None, None, [])

  function Single(h: Option<nat>): set<nat> {
    match h
    case Some(n) => {n}
    case None => {}
  }

  function Fresh(pool: Pool, n: nat): seq<nat> {
    seq(n, i requires 0 <= i < n => |pool.tasks| + i)
  }

  function SpawnTasks(pool: Pool, tasks: seq<Task>): Pool {
    pool.(tasks := pool.tasks + tasks)
  }

  // ----- The abort routines, on values

  function AdaptersAborted(pool: Pool, held: Bundle): Pool {
    pool.(cancelled := pool.cancelled + Elements(held.tokens), aborted := pool.aborted + Elements(held.adapters))
  }

  function WithoutAdapters(held: Bundle): Bundle {
    held.(adapters := [], tokens := [])
  }

  function SchedulesAborted(pool: Pool, held: Bundle): Pool {
    pool.(aborted := pool.aborted + Single(held.schedule) + Single(held.reminder))
  }

  function WithoutSchedules(held: Bundle): Bundle {
    held.(schedule := None, reminder := None)
  }

  function AllAborted(pool: Pool, held: Bundle): Pool {
    pool.(cancelled := pool.cancelled + Elements(held.tokens),
          aborted := pool.aborted + HeldHandles(held))
  }

  function HeldHandles(held: Bundle): set<nat> {
    Elements(held.adapters) + Single(held.schedule) + Single(held.config) + Single(held.reminder)
    + Elements(held.subAgents)
  }

  // ----- The task runtime and the component bundle

  class Runtime {
    var tasks: seq<Task>
    var aborted: set<nat>
    var cancelled: set<nat>
    var stateFiles: set<string>

    ghost function View(): Pool
      reads this
    {
      Pool(tasks, aborted, cancelled, stateFiles)
    }

    method Spawn(task: Task) returns (handle: nat)
      modifies this`tasks
      ensures View() == SpawnTasks(old(View()), [task]) && handle == |old(tasks)|
    {
      handle := |tasks|;
      tasks := tasks + [task];
    }

    method Abort(handle: nat)
      modifies this`aborted
      ensures aborted == old(aborted) + {handle}
    {
      aborted := aborted + {handle};
    }

    method AbortTaken(handle: Option<nat>)
      modifies this`aborted
      ensures aborted == old(aborted) + Single(handle)
    {
      if handle.Some? {
        Abort(handle.value);
      }
    }

    method Cancel(token: nat)
      modifies this`cancelled
      ensures cancelled == old(cancelled) + {token}
    {
      cancelled := cancelled + {token};
    }
  }

  class AgentComponents {
    var adapterHandles: seq<nat>
    var adapterCancelTokens: seq<nat>
    var scheduleWatcher: Option<nat>
    var configWatcher: Option<nat>
    var reminderRunner: Option<nat>
    var subAgentHandles: seq<nat>

    ghost function View(): Bundle
      reads this
    {
      Bundle(adapterHandles, adapterCancelTokens, scheduleWatcher, configWatcher, reminderRunner, subAgentHandles)
    }

    constructor ()
      ensures View() == Nothing
    {
      adapterHandles, adapterCancelTokens, subAgentHandles := [], [], [];
      scheduleWatcher, configWatcher, reminderRunner := None, None, None;
    }

    method CancelTokens(rt: Runtime)
      modifies rt`cancelled
      ensures rt.cancelled == old(rt.cancelled) + Elements(adapterCancelTokens)
    {
      for i := 0 to |adapterCancelTokens|
        invariant rt.cancelled == old(rt.cancelled) + Elements(adapterCancelTokens[..i])
      {
        rt.Cancel(adapterCancelTokens[i]);
        assert adapterCancelTokens[..i + 1] == adapterCancelTokens[..i] + [adapterCancelTokens[i]];
      }
      assert adapterCancelTokens[..|adapterCancelTokens|] == adapterCancelTokens;
    }

    method DrainAdapters(rt: Runtime)
      modifies this`adapterHandles, rt`aborted
      ensures adapterHandles == []
      ensures rt.aborted == old(rt.aborted) + Elements(old(adapterHandles))
    {
      while adapterHandles != []
        invariant rt.aborted + Elements(adapterHandles) == old(rt.aborted) + Elements(old(adapterHandles))
        decreases |adapterHandles|
      {
        rt.Abort(adapterHandles[0]);
        assert adapterHandles == [adapterHandles[0]] + adapterHandles[1..];
        adapterHandles := adapterHandles[1..];
      }
    }

    method AbortSubAgents(rt: Runtime)
      modifies this`subAgentHandles, rt`aborted
      ensures subAgentHandles == []
      ensures rt.aborted == old(rt.aborted) + Elements(old(subAgentHandles))
    {
      while subAgentHandles != []
        invariant rt.aborted + Elements(subAgentHandles) == old(rt.aborted) + Elements(old(subAgentHandles))
        decreases |subAgentHandles|
      {
        rt.Abort(subAgentHandles[0]);
        assert subAgentHandles == [subAgentHandles[0]] + subAgentHandles[1..];
        subAgentHandles := subAgentHandles[1..];
      }
    }

    method AbortAdapters(rt: Runtime)
      modifies this`adapterHandles, this`adapterCancelTokens, rt`aborted, rt`cancelled
      ensures View() == WithoutAdapters(old(View()))
      ensures rt.View() == AdaptersAborted(old(rt.View()), old(View()))
    {
      CancelTokens(rt);
      DrainAdapters(rt);
      adapterCancelTokens := [];
    }

    method AbortSchedules(rt: Runtime)
      modifies this`scheduleWatcher, this`reminderRunner, rt`aborted
      ensures View() == WithoutSchedules(old(View()))
      ensures rt.View() == SchedulesAborted(old(rt.View()), old(View()))
    {
      rt.AbortTaken(scheduleWatcher);
      scheduleWatcher := None;
      rt.AbortTaken(reminderRunner);
      reminderRunner := None;
    }

    method AbortAll(rt: Runtime)
      modifies this, rt`aborted, rt`cancelled
      ensures View() == Nothing
      ensures rt.View() == AllAborted(old(rt.View()), old(View()))
    {
      CancelTokens(rt);
      DrainAdapters(rt);
      adapterCancelTokens := [];
      rt.AbortTaken(scheduleWatcher);
      scheduleWatcher := None;
      rt.AbortTaken(configWatcher);
      configWatcher := None;
      rt.AbortTaken(reminderRunner);
      reminderRunner := None;
      AbortSubAgents(rt);
    }
  }
}
