/** Which wakes take effect, what configuration is in force, and which adapters then run. */
module ReloadNotice {
  import opened Sequences
  import opened Wrappers
  import opened Components
  import opened ConfigReload
  import opened ReloadRuns

  // ----- One wake

  /**
   * A wake that was asked for or sees another modification time records the times it saw. The file it
   * loads becomes the accepted one and success is recorded unless the respawn fails; a file that does
   * not load leaves its error. Any other wake changes nothing.
   */
  lemma StepReads(def: AgentDef, s: State, w: Wake)
    ensures var after := Step(def, s, w);
            if w.triggered || w.mtime != s.lastModified || w.dirMtime != s.lastDirMtime then
              && after.lastModified == w.mtime && after.lastDirMtime == w.dirMtime
              && match w.loaded
                 case Success(cfg) =>
                   && after.lastCfg == Some(cfg)
                   && (!RespawnFails(s, w) ==> after.reloadError == None && after.reloadedAt == Some(w.now))
                   && (RespawnFails(s, w) ==> after.reloadError == Some(Respawn) && after.reloadedAt == s.reloadedAt)
                 case Failure(e) =>
                   after == s.(lastModified := w.mtime, lastDirMtime := w.dirMtime, reloadError := Some(e))
            else after == s
  {
  }

  // ----- Runs

  /** Wake `i` was asked for, or the times it sees are not those seen by the wake before it. */
  predicate NoticedAt(s: State, wakes: seq<Wake>, i: nat)
    requires i < |wakes|
  {
    var (m, d) := if i == 0 then (s.lastModified, s.lastDirMtime) else (wakes[i - 1].mtime, wakes[i - 1].dirMtime);
    wakes[i].triggered || wakes[i].mtime != m || wakes[i].dirMtime != d
  }

  lemma LastTimes(def: AgentDef, s: State, wakes: seq<Wake>)
    requires wakes != []
    ensures var (after, last) := (Run(def, s, wakes), wakes[|wakes| - 1]);
            after.lastModified == last.mtime && after.lastDirMtime == last.dirMtime
  {
    StepReads(def, Run(def, s, wakes[..|wakes| - 1]), wakes[|wakes| - 1]);
  }

  /** In a run a wake is noticed exactly when the inputs say so. */
  lemma NoticedInRun(def: AgentDef, s: State, wakes: seq<Wake>, i: nat)
    requires i < |wakes|
    ensures Noticed(Run(def, s, wakes[..i]), wakes[i]) <==> NoticedAt(s, wakes, i)
  {
    if i > 0 {
      LastTimes(def, s, wakes[..i]);
      assert wakes[..i][i - 1] == wakes[i - 1];
    }
  }

  predicate LoadsAt(s: State, wakes: seq<Wake>, i: nat)
    requires i < |wakes|
  {
    NoticedAt(s, wakes, i) && wakes[i].loaded.Success?
  }

  ghost predicate LastLoad(s: State, wakes: seq<Wake>, k: nat) {
    k < |wakes| && LoadsAt(s, wakes, k) && forall i | k < i < |wakes| :: !LoadsAt(s, wakes, i)
  }

  ghost predicate LoadsNothing(s: State, wakes: seq<Wake>) {
    forall i | 0 <= i < |wakes| :: !LoadsAt(s, wakes, i)
  }

  lemma LoadsBefore(s: State, wakes: seq<Wake>, i: nat)
    requires i < |wakes| - 1
    ensures LoadsAt(s, wakes[..|wakes| - 1], i) <==> LoadsAt(s, wakes, i)
  {
  }

  lemma LastOfRun(def: AgentDef, s: State, wakes: seq<Wake>)
    requires wakes != []
    ensures var (before, last) := (Run(def, s, wakes[..|wakes| - 1]), wakes[|wakes| - 1]);
            && Run(def, s, wakes) == Step(def, before, last)
            && (Noticed(before, last) <==> NoticedAt(s, wakes, |wakes| - 1))
  {
    NoticedInRun(def, s, wakes, |wakes| - 1);
  }

  /** A run in which no noticed wake loads a file changes no component and no configuration. */
  lemma {:induction false} NothingLoaded(def: AgentDef, s: State, wakes: seq<Wake>)
    requires LoadsNothing(s, wakes)
    ensures var after := Run(def, s, wakes);
            after.lastCfg == s.lastCfg && after.pool == s.pool && after.held == s.held
    decreases |wakes|
  {
    if wakes != [] {
      var before := wakes[..|wakes| - 1];
      forall i | 0 <= i < |before| ensures !LoadsAt(s, before, i) {
        LoadsBefore(s, wakes, i);
      }
      NothingLoaded(def, s, before);
      LastOfRun(def, s, wakes);
      assert !LoadsAt(s, wakes, |wakes| - 1);
      StepReads(def, Run(def, s, before), wakes[|wakes| - 1]);
    }
  }

  /** The configuration in force is the file loaded by the last wake that was noticed and loaded one. */
  lemma {:induction false} LastLoadIsInForce(def: AgentDef, s: State, wakes: seq<Wake>, k: nat)
    requires LastLoad(s, wakes, k)
    ensures Run(def, s, wakes).lastCfg == Some(wakes[k].loaded.value)
    decreases |wakes|
  {
    var before := wakes[..|wakes| - 1];
    LastOfRun(def, s, wakes);
    StepReads(def, Run(def, s, before), wakes[|wakes| - 1]);
    if k < |wakes| - 1 {
      assert !LoadsAt(s, wakes, |wakes| - 1);
      forall i | k <= i < |before| ensures LoadsAt(s, before, i) <==> LoadsAt(s, wakes, i) {
        LoadsBefore(s, wakes, i);
      }
      LastLoadIsInForce(def, s, before, k);
    }
  }

  // ----- The adapters that run

  ghost predicate Live(s: State, h: nat) {
    h < |s.pool.tasks| && h !in s.pool.aborted
  }

  /** Every live task of the kind runs these routes, and there is one exactly when the agent has such an adapter. */
  ghost predicate OneTelegram(def: AgentDef, s: State, routes: seq<Section>) {
    && (forall h: nat | Live(s, h) && s.pool.tasks[h].TelegramAdapter? ::
          def.telegram && s.pool.tasks[h].routes == routes)
    && (forall h: nat, k: nat | Live(s, h) && Live(s, k) ::
          s.pool.tasks[h].TelegramAdapter? && s.pool.tasks[k].TelegramAdapter? ==> h == k)
    && (def.telegram ==> exists h: nat :: Live(s, h) && s.pool.tasks[h].TelegramAdapter?)
  }

  ghost predicate OneDiscord(def: AgentDef, s: State, routes: seq<Section>) {
    && (forall h: nat | Live(s, h) && s.pool.tasks[h].DiscordAdapter? ::
          def.discord && s.pool.tasks[h].routes == routes)
    && (forall h: nat, k: nat | Live(s, h) && Live(s, k) ::
          s.pool.tasks[h].DiscordAdapter? && s.pool.tasks[k].DiscordAdapter? ==> h == k)
    && (def.discord ==> exists h: nat :: Live(s, h) && s.pool.tasks[h].DiscordAdapter?)
  }

  lemma LiveAdapterIsHeld(s: State, h: nat) returns (i: nat)
    requires Sound(s) && LeakedIn(s) == {} && Live(s, h) && IsAdapter(s.pool.tasks[h])
    ensures i < |s.held.adapters| && s.held.adapters[i] == h
    ensures TasksOf(s.pool, s.held.adapters)[i] == s.pool.tasks[h]
  {
    assert h !in LeakedIn(s);
    assert h in s.held.adapters;
    i :| 0 <= i < |s.held.adapters| && s.held.adapters[i] == h;
  }

  lemma HeldAdapterIsLive(s: State, i: nat)
    requires Sound(s) && i < |s.held.adapters|
    ensures Live(s, s.held.adapters[i])
    ensures s.pool.tasks[s.held.adapters[i]] == TasksOf(s.pool, s.held.adapters)[i]
  {
    assert s.held.adapters[i] in HeldHandles(s.held);
  }

  lemma TelegramIsOne(def: AgentDef, s: State, cfg: UserConfig)
    requires Sound(s) && LeakedIn(s) == {} && RunsWith(def, s, cfg)
    ensures OneTelegram(def, s, if cfg.telegram.Some? then cfg.telegram.value.routes else [])
  {
    forall h: nat | Live(s, h) && s.pool.tasks[h].TelegramAdapter?
      ensures def.telegram && s.held.adapters != [] && h == s.held.adapters[0]
      ensures s.pool.tasks[h].routes == if cfg.telegram.Some? then cfg.telegram.value.routes else []
    {
      var i := LiveAdapterIsHeld(s, h);
      assert i == 0;
    }
    if def.telegram {
      assert TasksOf(s.pool, s.held.adapters)[0].TelegramAdapter?;
      HeldAdapterIsLive(s, 0);
    }
  }

  lemma DiscordIsOne(def: AgentDef, s: State, cfg: UserConfig)
    requires Sound(s) && LeakedIn(s) == {} && RunsWith(def, s, cfg)
    ensures OneDiscord(def, s, if cfg.discord.Some? then cfg.discord.value.routes else [])
  {
    var at := |AdapterTasks(def, cfg)| - 1;
    forall h: nat | Live(s, h) && s.pool.tasks[h].DiscordAdapter?
      ensures def.discord && 0 <= at < |s.held.adapters| && h == s.held.adapters[at]
      ensures s.pool.tasks[h].routes == if cfg.discord.Some? then cfg.discord.value.routes else []
    {
      var i := LiveAdapterIsHeld(s, h);
      assert i == at;
    }
    if def.discord {
      assert TasksOf(s.pool, s.held.adapters)[at].DiscordAdapter?;
      HeldAdapterIsLive(s, at);
    }
  }

  /**
   * After any run whose respawns succeeded, exactly one task of each adapter kind the agent has is
   * alive, with the routes of the file loaded last: none is doubled and none is left on older routes.
   */
  lemma OneLiveAdapterEach(def: AgentDef, s: State, wakes: seq<Wake>, k: nat)
    requires FollowsConfig(def, s) && LeakedIn(s) == {} && RespawnsSucceed(def, s, wakes) && LastLoad(s, wakes, k)
    ensures var after, cfg := Run(def, s, wakes), wakes[k].loaded.value;
            && OneTelegram(def, after, if cfg.telegram.Some? then cfg.telegram.value.routes else [])
            && OneDiscord(def, after, if cfg.discord.Some? then cfg.discord.value.routes else [])
  {
    NothingLeaksIff(def, s, wakes);
    RunFollowsConfig(def, s, wakes);
    LastLoadIsInForce(def, s, wakes, k);
    TelegramIsOne(def, Run(def, s, wakes), wakes[k].loaded.value);
    DiscordIsOne(def, Run(def, s, wakes), wakes[k].loaded.value);
  }
}
