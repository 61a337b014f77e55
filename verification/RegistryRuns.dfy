/** What runs of registry operations keep, against an eager list of tasks. */
module RegistryRuns {
  import opened Sequences
  import opened Wrappers
  import opened TaskRegistry

  // ----- Runs of operations

  datatype Op =
    | Insert(record: Record, now: int)
    | Get(id: string, now: int)
    | SetStatus(id: string, status: string, now: int, stamp: int)

  function Apply(reg: Registry, capacity: nat, ttl: int, op: Op): Registry {
    match op
    case Insert(record, now) => InsertInto(reg, capacity, ttl, record, now)
    case Get(_, now) => Sweep(reg, now, ttl)
    case SetStatus(id, status, now, stamp) => SetIn(Sweep(reg, now, ttl), id, status, stamp)
  }

  function Run(capacity: nat, ttl: int, ops: seq<Op>): Registry {
    if ops == [] then Registry(map[], [])
    else Apply(Run(capacity, ttl, ops[..|ops| - 1]), capacity, ttl, ops[|ops| - 1])
  }

  function StatusOf(r: Option<Record>): Option<string> {
    match r
    case Some(record) => Some(record.status)
    case None => None
  }

  function EndTime(op: Op): int {
    match op
    case Insert(_, now) => now
    case Get(_, now) => now
    case SetStatus(_, _, _, stamp) => stamp
  }

  /** The clock never runs backwards, between operations or within one. */
  ghost predicate ClockAdvances(ops: seq<Op>) {
    && (forall i | 0 <= i < |ops| - 1 :: EndTime(ops[i]) <= ops[i + 1].now)
    && (forall i | 0 <= i < |ops| :: ops[i].now <= EndTime(ops[i]))
  }

  function InsertedIds(ops: seq<Op>): seq<string> {
    if ops == [] then []
    else
      var last := ops[|ops| - 1];
      var before := InsertedIds(ops[..|ops| - 1]);
    if last.Insert? then before + [last.record.taskId] else before
  }

  // ----- The eager specification: a plain list, and age decided on reading

  datatype Entry = Entry(id: string, status: string, since: int)

  function Effective(e: Entry, now: int, ttl: int): string {
    if ttl > 0 && e.status == WORKING && now - e.since > ttl then EXPIRED else e.status
  }

  function Find(entries: seq<Entry>, id: string): Option<Entry> {
    if entries == [] then None
    else if entries[0].id == id then Some(entries[0])
    else Find(entries[1..], id)
  }

  function Update(entries: seq<Entry>, id: string, status: string, stamp: int): seq<Entry> {
    seq(|entries|, i requires 0 <= i < |entries| =>
      if entries[i].id == id then Entry(id, status, stamp) else entries[i])
  }

  function DropOldest(entries: seq<Entry>, capacity: nat): seq<Entry> {
    if |entries| >= capacity && entries != [] then entries[1..] else entries
  }

  function EagerApply(entries: seq<Entry>, capacity: nat, op: Op): seq<Entry> {
    match op
    case Insert(record, _) =>
      DropOldest(entries, capacity) + [Entry(record.taskId, record.status, record.updatedAt)]
    case Get(_, _) => entries
    case SetStatus(id, status, _, stamp) => Update(entries, id, status, stamp)
  }

  function EagerRun(capacity: nat, ops: seq<Op>): seq<Entry> {
    if ops == [] then []
    else EagerApply(EagerRun(capacity, ops[..|ops| - 1]), capacity, ops[|ops| - 1])
  }

  function EagerStatus(entries: seq<Entry>, id: string, now: int, ttl: int): Option<string> {
    match Find(entries, id)
    case Some(e) => Some(Effective(e, now, ttl))
    case None => None
  }

  // ----- Lazy sweeping is unobservable

  /** A record agrees with its entry, or was swept already, the entry being too old by time `t`. */
  ghost predicate Matches(r: Record, e: Entry, ttl: int, t: int) {
    || (r.status == e.status && r.updatedAt == e.since)
    || (ttl > 0 && e.status == WORKING && r.status == EXPIRED && t - e.since > ttl)
  }

  function Ids(entries: seq<Entry>): seq<string> {
    seq(|entries|, i requires 0 <= i < |entries| => entries[i].id)
  }

  /** The order queue lists every key of the map once. */
  ghost predicate Held(reg: Registry) {
    NoDuplicates(reg.order) && Elements(reg.order) == reg.tasks.Keys
  }

  ghost predicate Agree(reg: Registry, entries: seq<Entry>, ttl: int, t: int) {
    && reg.order == Ids(entries)
    && Held(reg)
    && forall i | 0 <= i < |entries| ::
         entries[i].id in reg.tasks && Matches(reg.tasks[entries[i].id], entries[i], ttl, t)
  }

  lemma HeldCount(reg: Registry)
    requires Held(reg)
    ensures |reg.tasks| == |reg.order|
  {
    NoDuplicatesCount(reg.order);
  }

  lemma SweepHeld(reg: Registry, now: int, ttl: int)
    requires Held(reg)
    ensures Held(Sweep(reg, now, ttl)) && |Sweep(reg, now, ttl).tasks| == |reg.tasks|
  {
    assert Sweep(reg, now, ttl).tasks.Keys == reg.tasks.Keys;
  }

  lemma EvictHeld(reg: Registry, capacity: nat)
    requires Held(reg)
    ensures Held(Evict(reg, capacity))
    ensures capacity >= 1 && |reg.tasks| <= capacity ==> |Evict(reg, capacity).tasks| < capacity
  {
    var after := Evict(reg, capacity);
    if after != reg {
      assert reg.order == [reg.order[0]] + after.order;
      DropFirst(reg.order);
      assert after.tasks.Keys == reg.tasks.Keys - {reg.order[0]};
    }
    HeldCount(reg);
    HeldCount(after);
  }

  /** A second entry of an id is what breaks the agreement of queue and map. */
  lemma EnterHeldIff(reg: Registry, record: Record)
    requires Held(reg)
    ensures Held(Enter(reg, record)) <==> record.taskId !in reg.tasks
    ensures record.taskId !in reg.tasks ==> |Enter(reg, record).tasks| == |reg.tasks| + 1
  {
    var after, id := Enter(reg, record), record.taskId;
    assert after.tasks.Keys == reg.tasks.Keys + {id};
    assert after.order == reg.order + [id];
    if id in reg.tasks {
      var i :| 0 <= i < |reg.order| && reg.order[i] == id;
      assert after.order[i] == after.order[|reg.order|];
    } else {
      assert Elements(after.order) == Elements(reg.order) + {id};
    }
  }

  lemma SweepAgrees(reg: Registry, entries: seq<Entry>, ttl: int, t: int, now: int)
    requires Agree(reg, entries, ttl, t) && t <= now
    ensures Agree(Sweep(reg, now, ttl), entries, ttl, now)
    ensures forall i | 0 <= i < |entries| ::
              Sweep(reg, now, ttl).tasks[entries[i].id].status == Effective(entries[i], now, ttl)
  {
    SweepHeld(reg, now, ttl);
  }

  lemma EvictAgrees(reg: Registry, entries: seq<Entry>, capacity: nat, ttl: int, t: int)
    requires Agree(reg, entries, ttl, t)
    ensures Agree(Evict(reg, capacity), DropOldest(entries, capacity), ttl, t)
  {
    HeldCount(reg);
    EvictHeld(reg, capacity);
    var after := Evict(reg, capacity);
    if |entries| >= capacity && entries != [] {
      assert after.order == Ids(entries[1..]);
      forall i | 0 <= i < |entries[1..]|
        ensures entries[1..][i].id in after.tasks && Matches(after.tasks[entries[1..][i].id], entries[1..][i], ttl, t)
      {
        assert entries[1..][i].id == after.order[i];
        assert entries[1..][i] == entries[i + 1];
      }
    }
  }

  lemma EnterAgrees(reg: Registry, entries: seq<Entry>, ttl: int, t: int, record: Record)
    requires Agree(reg, entries, ttl, t) && record.taskId !in reg.tasks
    ensures Agree(Enter(reg, record),
                  entries + [Entry(record.taskId, record.status, record.updatedAt)], ttl, t)
  {
    EnterHeldIff(reg, record);
    assert Enter(reg, record).order == Ids(entries + [Entry(record.taskId, record.status, record.updatedAt)]);
  }

  lemma SetAgrees(reg: Registry, entries: seq<Entry>, ttl: int, t: int, id: string, status: string, stamp: int)
    requires Agree(reg, entries, ttl, t) && t <= stamp
    ensures Agree(SetIn(reg, id, status, stamp), Update(entries, id, status, stamp), ttl, stamp)
  {
    assert SetIn(reg, id, status, stamp).tasks.Keys == reg.tasks.Keys;
    assert Ids(Update(entries, id, status, stamp)) == Ids(entries);
  }

  lemma StepAgrees(reg: Registry, entries: seq<Entry>, capacity: nat, ttl: int, t: int, op: Op)
    requires Agree(reg, entries, ttl, t) && t <= op.now <= EndTime(op)
    requires op.Insert? ==> op.record.taskId !in reg.tasks
    ensures Agree(Apply(reg, capacity, ttl, op), EagerApply(entries, capacity, op), ttl, EndTime(op))
  {
    var swept := Sweep(reg, op.now, ttl);
    SweepAgrees(reg, entries, ttl, t, op.now);
    match op
    case Insert(record, now) =>
      EvictAgrees(swept, entries, capacity, ttl, now);
      EnterAgrees(Evict(swept, capacity), DropOldest(entries, capacity), ttl, now, record);
    case Get(_, _) =>
    case SetStatus(id, status, now, stamp) =>
      SetAgrees(swept, entries, ttl, now, id, status, stamp);
  }

  // ----- Which tasks are kept

  function LastN(ids: seq<string>, n: nat): seq<string> {
    if |ids| <= n then ids else ids[|ids| - n..]
  }

  lemma InsertedGrow(ops: seq<Op>)
    requires ops != [] && NoDuplicates(InsertedIds(ops))
    ensures NoDuplicates(InsertedIds(ops[..|ops| - 1]))
    ensures ops[|ops| - 1].Insert? ==> ops[|ops| - 1].record.taskId !in InsertedIds(ops[..|ops| - 1])
  {
    var last, before := ops[|ops| - 1], InsertedIds(ops[..|ops| - 1]);
    var all := InsertedIds(ops);
    assert forall i | 0 <= i < |before| :: before[i] == all[i];
    if last.Insert? {
      assert all[|before|] == last.record.taskId;
    }
  }

  function EndOf(ops: seq<Op>, start: int): int {
    if ops == [] then start else EndTime(ops[|ops| - 1])
  }

  lemma LastNPush(ids: seq<string>, id: string, n: nat)
    requires n >= 1
    ensures var kept := LastN(ids, n);
            LastN(ids + [id], n) == (if |kept| >= n then kept[1..] else kept) + [id]
  {
  }

  lemma OrderAfter(reg: Registry, ids: seq<string>, capacity: nat, ttl: int, op: Op)
    requires capacity >= 1 && reg.order == LastN(ids, capacity) && Held(reg)
    ensures Apply(reg, capacity, ttl, op).order
         == LastN(if op.Insert? then ids + [op.record.taskId] else ids, capacity)
  {
    if op.Insert? {
      SweepHeld(reg, op.now, ttl);
      HeldCount(reg);
      LastNPush(ids, op.record.taskId, capacity);
      assert Evict(Sweep(reg, op.now, ttl), capacity).order
          == if |reg.order| >= capacity then reg.order[1..] else reg.order;
    }
  }

  ghost predicate WellFormed(reg: Registry, capacity: nat) {
    Held(reg) && |reg.tasks| <= capacity
  }

  lemma StepKeepsForm(reg: Registry, capacity: nat, ttl: int, op: Op)
    requires capacity >= 1 && WellFormed(reg, capacity)
    requires op.Insert? ==> op.record.taskId !in reg.tasks
    ensures WellFormed(Apply(reg, capacity, ttl, op), capacity)
  {
    var swept := Sweep(reg, op.now, ttl);
    SweepHeld(reg, op.now, ttl);
    match op
    case Insert(record, _) =>
      EvictHeld(swept, capacity);
      EnterHeldIff(Evict(swept, capacity), record);
    case Get(_, _) =>
    case SetStatus(id, status, _, stamp) =>
      assert SetIn(swept, id, status, stamp).tasks.Keys == swept.tasks.Keys;
  }

  lemma FreshIsNotHeld(capacity: nat, ttl: int, ops: seq<Op>)
    requires capacity >= 1 && ops != [] && NoDuplicates(InsertedIds(ops))
    ensures ops[|ops| - 1].Insert? ==>
              ops[|ops| - 1].record.taskId !in Run(capacity, ttl, ops[..|ops| - 1]).tasks
    decreases |ops|, 0
  {
    InsertedGrow(ops);
    KeepsTheNewest(capacity, ttl, ops[..|ops| - 1]);
    var reg := Run(capacity, ttl, ops[..|ops| - 1]);
    assert reg.tasks.Keys == Elements(reg.order);
  }

  /**
   * After any run of fresh inserts and other operations, whatever the clock did, exactly the newest
   * tasks are held.
   */
  lemma {:induction false} KeepsTheNewest(capacity: nat, ttl: int, ops: seq<Op>)
    requires capacity >= 1 && NoDuplicates(InsertedIds(ops))
    ensures Run(capacity, ttl, ops).order == LastN(InsertedIds(ops), capacity)
    ensures WellFormed(Run(capacity, ttl, ops), capacity)
    decreases |ops|, 1
  {
    if ops == [] { return; }
    var before, last := ops[..|ops| - 1], ops[|ops| - 1];
    InsertedGrow(ops);
    KeepsTheNewest(capacity, ttl, before);
    FreshIsNotHeld(capacity, ttl, ops);
    StepKeepsForm(Run(capacity, ttl, before), capacity, ttl, last);
    OrderAfter(Run(capacity, ttl, before), InsertedIds(before), capacity, ttl, last);
  }

  lemma {:induction false} RunAgrees(capacity: nat, ttl: int, ops: seq<Op>, start: int)
    requires capacity >= 1 && ClockAdvances(ops) && NoDuplicates(InsertedIds(ops))
    ensures Agree(Run(capacity, ttl, ops), EagerRun(capacity, ops), ttl, EndOf(ops, start))
  {
    if ops == [] { return; }
    var before, last := ops[..|ops| - 1], ops[|ops| - 1];
    ClockAdvanced(ops, last.now);
    InsertedGrow(ops);
    RunAgrees(capacity, ttl, before, last.now);
    FreshIsNotHeld(capacity, ttl, ops);
    StepAgrees(Run(capacity, ttl, before), EagerRun(capacity, before), capacity, ttl, EndOf(before, last.now), last);
  }

  lemma ClockAdvanced(ops: seq<Op>, start: int)
    requires ops != [] && ClockAdvances(ops) && start <= ops[|ops| - 1].now
    ensures ClockAdvances(ops[..|ops| - 1])
    ensures EndOf(ops[..|ops| - 1], start) <= ops[|ops| - 1].now <= EndOf(ops, start)
  {
    var before := ops[..|ops| - 1];
    assert forall i | 0 <= i < |before| :: before[i] == ops[i];
    if before != [] {
      assert before[|before| - 1] == ops[|ops| - 2];
    }
  }

  lemma {:induction false} FindMeaning(entries: seq<Entry>, id: string)
    ensures Find(entries, id).None? <==> (forall i | 0 <= i < |entries| :: entries[i].id != id)
    ensures NoDuplicates(Ids(entries)) ==>
              forall i | 0 <= i < |entries| && entries[i].id == id :: Find(entries, id) == Some(entries[i])
  {
    if entries != [] {
      FindMeaning(entries[1..], id);
      assert forall i | 1 <= i < |entries| :: entries[i] == entries[1..][i - 1];
      assert forall i | 0 <= i < |entries| :: Ids(entries)[i] == entries[i].id;
    }
  }

  /**
   * A status read after any run is the one the eager list gives: a working task is expired from
   * the moment its age exceeds the TTL, whichever operations happened to sweep in between.
   */
  lemma LazySweepIsUnobservable(capacity: nat, ttl: int, ops: seq<Op>, id: string, now: int)
    requires capacity >= 1 && ClockAdvances(ops) && NoDuplicates(InsertedIds(ops))
    requires EndOf(ops, now) <= now
    ensures StatusOf(Lookup(Sweep(Run(capacity, ttl, ops), now, ttl), id))
         == EagerStatus(EagerRun(capacity, ops), id, now, ttl)
  {
    RunAgrees(capacity, ttl, ops, now);
    var reg, entries := Run(capacity, ttl, ops), EagerRun(capacity, ops);
    SweepAgrees(reg, entries, ttl, EndOf(ops, now), now);
    FindMeaning(entries, id);
    if id in reg.tasks {
      var i :| 0 <= i < |reg.order| && reg.order[i] == id;
      assert entries[i].id == id;
    }
  }

  // ----- No way back to working

  ghost predicate Quiet(op: Op, id: string) {
    && (op.SetStatus? && op.id == id ==> op.status != WORKING)
    && (op.Insert? ==> op.record.taskId != id)
  }

  /** Records are entered with a timestamp taken before the registry is locked. */
  ghost predicate Stamped(ops: seq<Op>) {
    forall i | 0 <= i < |ops| && ops[i].Insert? :: ops[i].record.updatedAt <= ops[i].now
  }

  ghost predicate NotYounger(before: Registry, after: Registry, id: string) {
    id in after.tasks ==>
      && id in before.tasks
      && (before.tasks[id].status != WORKING ==> after.tasks[id].status != WORKING)
      && before.tasks[id].updatedAt <= after.tasks[id].updatedAt
  }

  ghost predicate Dated(reg: Registry, id: string, t: int) {
    id in reg.tasks ==> reg.tasks[id].updatedAt <= t
  }

  lemma DatedStep(reg: Registry, capacity: nat, ttl: int, op: Op, id: string)
    requires Dated(reg, id, op.now) && op.now <= EndTime(op)
    requires op.Insert? ==> op.record.updatedAt <= op.now
    ensures Dated(Apply(reg, capacity, ttl, op), id, EndTime(op))
  {
  }

  lemma QuietStep(reg: Registry, capacity: nat, ttl: int, op: Op, id: string)
    requires Dated(reg, id, op.now) && op.now <= EndTime(op) && Quiet(op, id)
    ensures NotYounger(reg, Apply(reg, capacity, ttl, op), id)
  {
  }

  lemma {:induction false} RunIsDated(capacity: nat, ttl: int, ops: seq<Op>, start: int, id: string)
    requires ClockAdvances(ops) && Stamped(ops)
    ensures Dated(Run(capacity, ttl, ops), id, EndOf(ops, start))
  {
    if ops == [] { return; }
    var before, last := ops[..|ops| - 1], ops[|ops| - 1];
    ClockAdvanced(ops, last.now);
    RunIsDated(capacity, ttl, before, last.now, id);
    DatedStep(Run(capacity, ttl, before), capacity, ttl, last, id);
  }

  /**
   * Once a task is not working it is never working again, and its timestamp never decreases, unless
   * a caller sets it working (the one caller sets `cancelled`) or enters its id anew.
   */
  lemma {:induction false} NeverBackToWorking(capacity: nat, ttl: int, ops: seq<Op>, from: nat, id: string)
    requires from <= |ops| && ClockAdvances(ops) && Stamped(ops)
    requires forall i | from <= i < |ops| :: Quiet(ops[i], id)
    ensures NotYounger(Run(capacity, ttl, ops[..from]), Run(capacity, ttl, ops), id)
    decreases |ops|
  {
    if from == |ops| {
      assert ops[..from] == ops;
    } else {
      var before, last := ops[..|ops| - 1], ops[|ops| - 1];
      ClockAdvanced(ops, last.now);
      RunIsDated(capacity, ttl, before, last.now, id);
      QuietStep(Run(capacity, ttl, before), capacity, ttl, last, id);
      NeverBackToWorking(capacity, ttl, before, from, id);
      assert before[..from] == ops[..from];
    }
  }

  // ----- Inserting an id that is already held

  /** Inserting keeps the registry well formed exactly when the id is new or is the one evicted. */
  lemma InsertKeepsIff(reg: Registry, capacity: nat, ttl: int, record: Record, now: int)
    requires capacity >= 1 && WellFormed(reg, capacity)
    ensures WellFormed(InsertInto(reg, capacity, ttl, record, now), capacity)
       <==> (record.taskId !in reg.tasks || (|reg.tasks| == capacity && reg.order[0] == record.taskId))
  {
    var swept := Sweep(reg, now, ttl);
    SweepHeld(reg, now, ttl);
    HeldCount(reg);
    EvictHeld(swept, capacity);
    EnterHeldIff(Evict(swept, capacity), record);
  }

  datatype Shape<T> = Shape(order: seq<T>, keys: set<T>)

  /** What inserting `id` with a capacity of two does to the queue and to the set of keys. */
  function Slide<T>(s: Shape<T>, id: T): Shape<T> {
    if |s.keys| >= 2 && s.order != []
    then Shape(s.order[1..] + [id], s.keys - {s.order[0]} + {id})
    else Shape(s.order + [id], s.keys + {id})
  }

  lemma InsertSlides(reg: Registry, record: Record)
    ensures var after := InsertInto(reg, 2, 0, record, 0);
            Shape(after.order, after.tasks.Keys) == Slide(Shape(reg.order, reg.tasks.Keys), record.taskId)
  {
    assert Sweep(reg, 0, 0) == reg;
    assert (reg.tasks[record.taskId := record]).Keys == reg.tasks.Keys + {record.taskId};
  }

  lemma SlideWithRoom<T>(order: seq<T>, keys: set<T>, id: T)
    requires |keys| < 2
    ensures Slide(Shape(order, keys), id) == Shape(order + [id], keys + {id})
  {
  }

  lemma SlideWhenFull<T>(first: T, rest: seq<T>, keys: set<T>, id: T)
    requires |keys| >= 2
    ensures Slide(Shape([first] + rest, keys), id) == Shape(rest + [id], keys - {first} + {id})
  {
  }

  lemma TwiceThenOne<T>(a: T, b: T)
    requires a != b
    ensures Slide(Slide(Slide(Shape([], {}), a), a), b) == Shape([a] + [a, b], {a, b})
  {
    SlideWithRoom([], {}, a);
    assert [] + [a] == [a] && {} + {a} == {a};
    SlideWithRoom([a], {a}, a);
    assert [a] + [a] == [a, a] && {a} + {a} == {a};
    SlideWithRoom([a, a], {a}, b);
    assert [a, a] + [b] == [a] + [a, b] && {a} + {b} == {a, b};
  }

  lemma OneMore<T>(a: T, b: T, c: T)
    requires a != b && a != c && b != c
    ensures Slide(Shape([a] + [a, b], {a, b}), c) == Shape([a] + [b, c], {b, c})
  {
    SlideWhenFull(a, [a, b], {a, b}, c);
    assert {a, b} - {a} + {c} == {b, c};
    assert [a, b] + [c] == [a] + [b, c];
  }

  lemma TwiceThenThree<T>(a: T, b: T, c: T, d: T)
    requires a != b && a != c && a != d && b != c && b != d && c != d
    ensures |Slide(Slide(Slide(Slide(Slide(Shape([], {}), a), a), b), c), d).keys| == 3
  {
    TwiceThenOne(a, b);
    OneMore(a, b, c);
    SlideWhenFull(a, [b, c], {b, c}, d);
    assert {b, c} - {a} + {d} == {b, c, d};
  }

  /** Entering one id twice, then three others, lets the registry outgrow a capacity of two. */
  lemma ReinsertionOutgrowsCapacity(a: Record, b: Record, c: Record, d: Record)
    requires a.taskId != b.taskId && a.taskId != c.taskId && a.taskId != d.taskId
    requires b.taskId != c.taskId && b.taskId != d.taskId && c.taskId != d.taskId
    ensures var twice := InsertInto(InsertInto(Registry(map[], []), 2, 0, a, 0), 2, 0, a, 0);
            var full := InsertInto(InsertInto(twice, 2, 0, b, 0), 2, 0, c, 0);
            |InsertInto(full, 2, 0, d, 0).tasks| == 3
  {
    var r0 := Registry(map[], []);
    var r1 := InsertInto(r0, 2, 0, a, 0);
    var r2 := InsertInto(r1, 2, 0, a, 0);
    var r3 := InsertInto(r2, 2, 0, b, 0);
    var r4 := InsertInto(r3, 2, 0, c, 0);
    InsertSlides(r0, a);
    InsertSlides(r1, a);
    InsertSlides(r2, b);
    InsertSlides(r3, c);
    InsertSlides(r4, d);
    assert r0.tasks.Keys == {};
    TwiceThenThree(a.taskId, b.taskId, c.taskId, d.taskId);
    assert |InsertInto(r4, 2, 0, d, 0).tasks.Keys| == 3;
  }

  // ----- What a record keeps

  /** Nothing but the status and the time of its last change. */
  predicate SameTask(a: Record, b: Record) {
    a.taskId == b.taskId && a.skill == b.skill && a.agent == b.agent && a.createdAt == b.createdAt
  }

  ghost predicate LastInserted(ops: seq<Op>, id: string, i: nat) {
    && i < |ops| && ops[i].Insert? && ops[i].record.taskId == id
    && forall j | i < j < |ops| && ops[j].Insert? :: ops[j].record.taskId != id
  }

  lemma StepKeepsTask(reg: Registry, capacity: nat, ttl: int, op: Op, id: string)
    requires id in Apply(reg, capacity, ttl, op).tasks && (op.Insert? ==> op.record.taskId != id)
    ensures id in reg.tasks && SameTask(Apply(reg, capacity, ttl, op).tasks[id], reg.tasks[id])
  {
    match op
    case Insert(record, now) =>
      assert Evict(Sweep(reg, now, ttl), capacity).tasks[id] == SweepRecord(reg.tasks[id], now, ttl);
    case Get(_, now) =>
    case SetStatus(_, _, _, _) =>
  }

  /** A task that is still known is the one inserted last under its id, but for status and last change. */
  lemma {:induction false} RecordIsAsInserted(capacity: nat, ttl: int, ops: seq<Op>, id: string, i: nat)
    requires LastInserted(ops, id, i) && id in Run(capacity, ttl, ops).tasks
    ensures SameTask(Run(capacity, ttl, ops).tasks[id], ops[i].record)
    decreases |ops|
  {
    if i < |ops| - 1 {
      var before := ops[..|ops| - 1];
      StepKeepsTask(Run(capacity, ttl, before), capacity, ttl, ops[|ops| - 1], id);
      RecordIsAsInserted(capacity, ttl, before, id, i);
    }
  }

  /** A sweep leaves a record as it was, or has it expired now after it had been at work for too long. */
  lemma SweptRecordIs(reg: Registry, now: int, ttl: int, id: string)
    requires id in reg.tasks
    ensures var (before, after) := (reg.tasks[id], Sweep(reg, now, ttl).tasks[id]);
            && SameTask(before, after)
            && (after == before || (before.status == WORKING && after.status == EXPIRED && after.updatedAt == now))
  {
  }
}
