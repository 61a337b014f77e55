/** The state file of an agent and the helpers that rewrite it. */
module AgentRegistry {
  import opened Wrappers

  /** The configuration kept in the state file; `rest` stands for the fields nothing here reads. */
  datatype AgentConfig = AgentConfig(persistent: bool, rest: string)

  datatype StoredState = StoredState(
    config: AgentConfig,
    pid: nat,
    sessionId: string,
    totalTurns: nat,
    totalCost: real,
    sessionStart: Option<int>,
    sessionCost: real,
    sessionTurns: nat)

  function NewState(config: AgentConfig): StoredState {
    StoredState(config, 0, "", 0, 0.0, None, 0.0, 0)
  }

  function PidPersisted(content: Option<StoredState>, pid: nat): Option<StoredState> {
    match content
    case None => None
    case Some(state) => Some(state.(pid := pid))
  }

  function PidCleared(content: Option<StoredState>, expected: nat): Option<StoredState> {
    match content
    case None => None
    case Some(state) => Some(if state.pid == expected then state.(pid := 0) else state)
  }

  function Recovered(content: Option<StoredState>, config: AgentConfig): StoredState {
    match content
    case None => NewState(config)
    case Some(state) => state.(config := config, pid := 0)
  }

  /** Everything but the configuration and the pid. */
  predicate SameFigures(a: StoredState, b: StoredState) {
    && a.sessionId == b.sessionId && a.totalTurns == b.totalTurns && a.totalCost == b.totalCost
    && a.sessionStart == b.sessionStart && a.sessionCost == b.sessionCost && a.sessionTurns == b.sessionTurns
  }

  class StateFile {
    var content: Option<StoredState>

    method PersistPid(pid: nat)
      modifies this
      ensures content == PidPersisted(old(content), pid)
    {
      if content.None? {
        return;
      }
      var state := content.value;
      if state.pid == pid {
        return;
      }
      content := Some(state.(pid := pid));
    }

    method ClearPidIfMatches(expected: nat)
      modifies this
      ensures content == PidCleared(old(content), expected)
    {
      if content.None? {
        return;
      }
      var state := content.value;
      if state.pid != expected {
        return;
      }
      if state.pid == 0 {
        return;
      }
      content := Some(state.(pid := 0));
    }

    method CreateOrRecover(config: AgentConfig) returns (state: StoredState)
      modifies this
      ensures content == Some(Recovered(old(content), config)) && state == content.value
      ensures state.config == config && state.pid == 0
      ensures old(content).Some? ==> SameFigures(state, old(content).value)
      ensures old(content).None? ==> state == StoredState(config, 0, "", 0, 0.0, None, 0.0, 0)
    {
      if content.Some? {
        state := content.value.(config := config);
        if state.pid != 0 {
          state := state.(pid := 0);
        }
      } else {
        state := NewState(config);
      }
      content := Some(state);
    }
  }
}
