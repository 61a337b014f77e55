/** The bounded in-memory registry of A2A tasks. */
module TaskRegistry {
  import opened Wrappers

  /** Timestamps and durations are integers in the clock's own unit. */
  datatype Record = Record(
    taskId: string, skill: string, agent: string, status: string, createdAt: int, updatedAt: int)

  datatype Registry = Registry(tasks: map<string, Record>, order: seq<string>)

  const WORKING := "working"
  const EXPIRED := "expired"

  // ----- The operations, on values

  function SweepRecord(r: Record, now: int, ttl: int): Record {
    if ttl > 0 && r.status == WORKING && now - r.updatedAt > ttl
    then r.(status := EXPIRED, updatedAt := now)
    else r
  }

  function SweepTasks(tasks: map<string, Record>, now: int, ttl: int): map<string, Record> {
    map id | id in tasks :: SweepRecord(tasks[id], now, ttl)
  }

  function Sweep(reg: Registry, now: int, ttl: int): Registry {
    reg.(tasks := SweepTasks(reg.tasks, now, ttl))
  }

  function Evict(reg: Registry, capacity: nat): Registry {
    if |reg.tasks| >= capacity && reg.order != []
    then Registry(reg.tasks - {reg.order[0]}, reg.order[1..])
    else reg
  }

  function Enter(reg: Registry, record: Record): Registry {
    Registry(reg.tasks[record.taskId := record], reg.order + [record.taskId])
  }

  function InsertInto(reg: Registry, capacity: nat, ttl: int, record: Record, now: int): Registry {
    Enter(Evict(Sweep(reg, now, ttl), capacity), record)
  }

  function Lookup(reg: Registry, id: string): Option<Record> {
    if id in reg.tasks then Some(reg.tasks[id]) else None
  }

  function SetIn(reg: Registry, id: string, status: string, stamp: int): Registry {
    if id in reg.tasks
    then reg.(tasks := reg.tasks[id := reg.tasks[id].(status := status, updatedAt := stamp)])
    else reg
  }

  // ----- The registry itself

  class A2aTaskRegistry {
    var tasks: map<string, Record>
    var order: seq<string>
    const capacity: nat
    const ttl: int

    ghost function State(): Registry
      reads this
    {
      Registry(tasks, order)
    }

    constructor (capacity: nat, ttl: int)
      ensures State() == Registry(map[], [])
      ensures this.capacity == (if capacity < 1 then 1 else capacity) && this.ttl == ttl
    {
      this.tasks := map[];
      this.order := [];
      this.capacity := if capacity < 1 then 1 else capacity;
      this.ttl := ttl;
    }

    method SweepExpired(now: int)
      modifies this`tasks
      ensures State() == Sweep(old(State()), now, ttl)
    {
      if ttl <= 0 {
        return;
      }
      var rest := tasks.Keys;
      while rest != {}
        invariant rest <= tasks.Keys == old(tasks).Keys
        invariant forall id | id in tasks ::
                    tasks[id] == if id in rest then old(tasks)[id] else SweepRecord(old(tasks)[id], now, ttl)
        decreases rest
      {
        var id :| id in rest;
        var record := tasks[id];
        if record.status == WORKING && now - record.updatedAt > ttl {
          tasks := tasks[id := record.(status := EXPIRED, updatedAt := now)];
        }
        rest := rest - {id};
      }
    }

    method Insert(record: Record, now: int)
      modifies this`tasks, this`order
      ensures State() == InsertInto(old(State()), capacity, ttl, record, now)
    {
      SweepExpired(now);
      if |tasks| >= capacity {
        if order != [] {
          var oldest := order[0];
          order := order[1..];
          tasks := tasks - {oldest};
        }
      }
      order := order + [record.taskId];
      tasks := tasks[record.taskId := record];
    }

    method Get(taskId: string, now: int) returns (r: Option<Record>)
      modifies this`tasks
      ensures State() == Sweep(old(State()), now, ttl)
      ensures r == Lookup(State(), taskId)
    {
      SweepExpired(now);
      r := if taskId in tasks then Some(tasks[taskId]) else None;
    }

    /** `stamp` is the second reading of the clock, taken after the sweep. */
    method SetStatus(taskId: string, status: string, now: int, stamp: int) returns (r: Option<Record>)
      modifies this`tasks
      ensures State() == SetIn(Sweep(old(State()), now, ttl), taskId, status, stamp)
      ensures r == Lookup(State(), taskId)
    {
      SweepExpired(now);
      if taskId !in tasks {
        return None;
      }
      tasks := tasks[taskId := tasks[taskId].(status := status, updatedAt := stamp)];
      return Some(tasks[taskId]);
    }
  }
}
