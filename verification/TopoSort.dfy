/** Graph validation and Kahn's algorithm, `topo_sort`. */
module TopoSort {
  import opened Sequences
  import opened Wrappers
  import opened SkillGraph

  datatype GraphError = MissingDependency(step: string, dep: string) | CycleDetected

  // ----- Validation

  /** `(i, j)` is the first dependency, in document order, that names no step. */
  ghost predicate FirstMissing(steps: seq<StepDef>, i: nat, j: nat) {
    && i < |steps| && j < |steps[i].dependsOn|
    && steps[i].dependsOn[j] !in StepIds(steps)
    && (forall k | 0 <= k < j :: steps[i].dependsOn[k] in StepIds(steps))
    && (forall s | s in steps[..i] :: forall d | d in s.dependsOn :: d in StepIds(steps))
  }

  ghost predicate ReportsFirstMissing(steps: seq<StepDef>, error: GraphError) {
    exists i: nat, j: nat | FirstMissing(steps, i, j) ::
      error == MissingDependency(steps[i].id, steps[i].dependsOn[j])
  }

  method CheckDependencies(steps: seq<StepDef>) returns (missing: Option<GraphError>)
    ensures missing.None? <==> DependenciesExist(steps)
    ensures missing.Some? ==> ReportsFirstMissing(steps, missing.value)
  {
    var ids := StepIds(steps);
    for i := 0 to |steps|
      invariant forall s | s in steps[..i] :: forall d | d in s.dependsOn :: d in ids
    {
      var deps := steps[i].dependsOn;
      for j := 0 to |deps|
        invariant forall k | 0 <= k < j :: deps[k] in ids
      {
        if deps[j] !in ids {
          assert FirstMissing(steps, i, j);
          return Some(MissingDependency(steps[i].id, deps[j]));
        }
      }
      assert steps[..i + 1] == steps[..i] + [steps[i]];
    }
    assert steps[..|steps|] == steps;
    return None;
  }

  // ----- Counting dependencies, with repetitions

  /** How many entries of `deps` are not in `done`. */
  ghost function PendingCount(deps: seq<string>, done: set<string>): nat {
    if deps == [] then 0
    else (if deps[0] in done then 0 else 1) + PendingCount(deps[1..], done)
  }

  lemma {:induction false} PendingZero(deps: seq<string>, done: set<string>)
    ensures PendingCount(deps, done) == 0 <==> forall d | d in deps :: d in done
  {
    if deps != [] {
      PendingZero(deps[1..], done);
      assert deps == [deps[0]] + deps[1..];
    }
  }

  lemma {:induction false} PendingOfNone(deps: seq<string>)
    ensures PendingCount(deps, {}) == |deps|
  {
    if deps != [] {
      PendingOfNone(deps[1..]);
    }
  }

  /** Finishing `x` lowers the count by the number of times `x` is listed. */
  lemma {:induction false} PendingAfter(deps: seq<string>, done: set<string>, x: string)
    requires x !in done
    ensures PendingCount(deps, done) == PendingCount(deps, done + {x}) + multiset(deps)[x]
  {
    if deps != [] {
      PendingAfter(deps[1..], done, x);
      assert multiset(deps) == multiset{deps[0]} + multiset(deps[1..]) by {
        assert deps == [deps[0]] + deps[1..];
      }
    }
  }

  // ----- Building the in-degree map and the adjacency list

  function Listed(dependents: map<string, seq<string>>, x: string): seq<string> {
    if x in dependents then dependents[x] else []
  }

  /** The two maps record exactly the edges `deps`, each as often as it is listed. */
  ghost predicate Recorded(
    deps: map<string, seq<string>>, inDegree: map<string, nat>, dependents: map<string, seq<string>>)
  {
    && inDegree.Keys == deps.Keys
    && (forall s | s in deps :: inDegree[s] == |deps[s]|)
    && (forall x, s | s in Listed(dependents, x) :: s in deps)
    && (forall x, s | s in deps :: multiset(Listed(dependents, x))[s] == multiset(deps[s])[x])
  }

  lemma RecordNode(deps: map<string, seq<string>>, inDegree: map<string, nat>,
                   dependents: map<string, seq<string>>, s: string)
    requires Recorded(deps, inDegree, dependents) && s !in deps
    ensures Recorded(deps[s := []], inDegree[s := 0], dependents)
  {
    forall x ensures multiset(Listed(dependents, x))[s] == 0 {
      assert s !in Listed(dependents, x);
    }
  }

  lemma RecordEdge(deps: map<string, seq<string>>, deps': map<string, seq<string>>,
                   inDegree: map<string, nat>, dependents: map<string, seq<string>>, s: string, d: string)
    requires Recorded(deps, inDegree, dependents)
    requires s in deps && deps' == deps[s := deps[s] + [d]]
    ensures s in inDegree
    ensures Recorded(deps', inDegree[s := inDegree[s] + 1], dependents[d := Listed(dependents, d) + [s]])
  {
    var dependents' := dependents[d := Listed(dependents, d) + [s]];
    forall x, t | t in deps
      ensures multiset(Listed(dependents', x))[t] == multiset(deps'[t])[x]
    {
      assert multiset(Listed(dependents, x))[t] == multiset(deps[t])[x];
      EdgeCounts(deps, dependents, s, d, x, t);
    }
    forall x, t | t in Listed(dependents', x) ensures t in deps {
      assert t in Listed(dependents, x) || t == s;
    }
  }

  /** The new edge is counted once on either side. */
  lemma EdgeCounts(deps: map<string, seq<string>>, dependents: map<string, seq<string>>, s: string, d: string,
                   x: string, t: string)
    requires s in deps && t in deps
    requires multiset(Listed(dependents, x))[t] == multiset(deps[t])[x]
    ensures multiset(Listed(dependents[d := Listed(dependents, d) + [s]], x))[t]
         == multiset(deps[s := deps[s] + [d]][t])[x]
  {
    if x == d {
      AppendCount(Listed(dependents, d), s, t);
    }
    if t == s {
      AppendCount(deps[s], d, x);
    }
  }

  lemma AppendCount(a: seq<string>, x: string, y: string)
    ensures multiset(a + [x])[y] == multiset(a)[y] + if x == y then 1 else 0
  {
    assert multiset(a + [x]) == multiset(a) + multiset{x};
  }

  function DependencyLists(steps: seq<StepDef>): map<string, seq<string>> {
    var sm := StepMap(steps);
    map id | id in sm :: sm[id].dependsOn
  }

  method RecordStep(step: StepDef, ghost seen: map<string, seq<string>>,
                    inDegree0: map<string, nat>, dependents0: map<string, seq<string>>)
    returns (inDegree: map<string, nat>, dependents: map<string, seq<string>>)
    requires Recorded(seen, inDegree0, dependents0) && step.id !in seen
    ensures Recorded(seen[step.id := step.dependsOn], inDegree, dependents)
  {
    RecordNode(seen, inDegree0, dependents0, step.id);
    inDegree, dependents := inDegree0[step.id := 0], dependents0;
    for j := 0 to |step.dependsOn|
      invariant Recorded(seen[step.id := step.dependsOn[..j]], inDegree, dependents)
    {
      var dep := step.dependsOn[j];
      RecordNext(seen, inDegree, dependents, step.id, step.dependsOn, j);
      inDegree := inDegree[step.id := inDegree[step.id] + 1];
      dependents := dependents[dep := Listed(dependents, dep) + [step.id]];
    }
    assert step.dependsOn[..|step.dependsOn|] == step.dependsOn;
  }

  lemma RecordNext(seen: map<string, seq<string>>, inDegree: map<string, nat>, dependents: map<string, seq<string>>,
                   s: string, dependsOn: seq<string>, j: nat)
    requires j < |dependsOn| && Recorded(seen[s := dependsOn[..j]], inDegree, dependents)
    ensures s in inDegree
    ensures Recorded(seen[s := dependsOn[..j + 1]], inDegree[s := inDegree[s] + 1],
                     dependents[dependsOn[j] := Listed(dependents, dependsOn[j]) + [s]])
  {
    assert dependsOn[..j + 1] == dependsOn[..j] + [dependsOn[j]];
    RecordEdge(seen[s := dependsOn[..j]], seen[s := dependsOn[..j + 1]], inDegree, dependents, s, dependsOn[j]);
  }

  lemma IdIsNew(steps: seq<StepDef>, i: nat)
    requires UniqueIds(steps) && i < |steps|
    ensures steps[i].id !in StepIds(steps[..i])
  {
    forall s | s in steps[..i] ensures s.id != steps[i].id {
      var k :| 0 <= k < i && steps[k] == s;
    }
  }

  lemma DependencyListsStep(steps: seq<StepDef>, i: nat)
    requires i < |steps|
    ensures DependencyLists(steps[..i + 1]) == DependencyLists(steps[..i])[steps[i].id := steps[i].dependsOn]
  {
    var prefix := steps[..i + 1];
    assert prefix[..|prefix| - 1] == steps[..i] && prefix[|prefix| - 1] == steps[i];
  }

  method BuildEdges(steps: seq<StepDef>)
    returns (inDegree: map<string, nat>, dependents: map<string, seq<string>>)
    requires UniqueIds(steps)
    ensures Recorded(DependencyLists(steps), inDegree, dependents)
  {
    inDegree, dependents := map[], map[];
    ghost var seen: map<string, seq<string>> := map[];
    for i := 0 to |steps|
      invariant Recorded(seen, inDegree, dependents)
      invariant seen == DependencyLists(steps[..i])
    {
      IdIsNew(steps, i);
      DependencyListsStep(steps, i);
      inDegree, dependents := RecordStep(steps[i], seen, inDegree, dependents);
      seen := seen[steps[i].id := steps[i].dependsOn];
    }
    assert steps[..|steps|] == steps;
  }

  // ----- Kahn's algorithm

  /**
   * The state of the algorithm: the nodes in `order` are finished, and the decrements that the
   * last of them still owes its dependents are listed in `owed`.
   */
  ghost predicate KahnState(deps: map<string, seq<string>>, inDegree: map<string, nat>,
                            queue: seq<string>, order: seq<string>, owed: seq<string>)
  {
    && inDegree.Keys == deps.Keys
    && (forall s | s in deps ::
          inDegree[s] == PendingCount(deps[s], Elements(order)) + multiset(owed)[s])
    && (forall s | s in deps :: s in order + queue <==> inDegree[s] == 0)
    && NoDuplicates(order + queue)
    && Elements(order + queue) <= deps.Keys
    && (forall i, d | 0 <= i < |order| && d in deps[order[i]] :: d in order[..i])
  }

  /** Taking the front of the queue: its dependents are now owed one decrement per edge. */
  lemma PopFront(deps: map<string, seq<string>>, inDegree: map<string, nat>,
                 queue: seq<string>, order: seq<string>, owed: seq<string>)
    requires KahnState(deps, inDegree, queue, order, []) && queue != []
    requires forall s | s in deps :: multiset(owed)[s] == multiset(deps[s])[queue[0]]
    ensures KahnState(deps, inDegree, queue[1..], order + [queue[0]], owed)
    ensures queue[0] in deps && queue[0] !in order
  {
    var node := queue[0];
    assert order + queue == order + [node] + queue[1..];
    assert (order + queue)[|order|] == node;
    assert node !in order by {
      forall i | 0 <= i < |order| ensures order[i] != node {
        assert (order + queue)[i] != (order + queue)[|order|];
      }
    }
    assert Elements(order + [node]) == Elements(order) + {node};
    forall s | s in deps
      ensures inDegree[s] == PendingCount(deps[s], Elements(order + [node])) + multiset(owed)[s]
    {
      PendingAfter(deps[s], Elements(order), node);
    }
    assert node in Elements(order + queue);
    PendingZero(deps[node], Elements(order));
    var order' := order + [node];
    forall i, d | 0 <= i < |order'| && d in deps[order'[i]] ensures d in order'[..i] {
      assert order'[..i] == order[..i];
    }
  }

  /** One decrement: it cannot underflow, and the node joins the queue when it reaches zero. */
  lemma PayOne(deps: map<string, seq<string>>, inDegree: map<string, nat>,
               queue: seq<string>, order: seq<string>, owed: seq<string>)
    requires KahnState(deps, inDegree, queue, order, owed)
    requires owed != [] && owed[0] in deps
    ensures inDegree[owed[0]] > 0
    ensures var inDegree' := inDegree[owed[0] := inDegree[owed[0]] - 1];
            KahnState(deps, inDegree', if inDegree'[owed[0]] == 0 then queue + [owed[0]] else queue,
                      order, owed[1..])
  {
    var s := owed[0];
    CountOfFirst(owed);
    var inDegree' := inDegree[s := inDegree[s] - 1];
    if inDegree'[s] == 0 {
      assert order + (queue + [s]) == (order + queue) + [s];
      assert s !in order + queue;
      OneMoreElement(order + queue, s);
    }
  }

  lemma CountOfFirst(owed: seq<string>)
    requires owed != []
    ensures forall t :: multiset(owed)[t] == multiset(owed[1..])[t] + if t == owed[0] then 1 else 0
  {
    assert owed == [owed[0]] + owed[1..];
    assert multiset(owed) == multiset{owed[0]} + multiset(owed[1..]);
  }

  lemma OneMoreElement(a: seq<string>, x: string)
    requires NoDuplicates(a) && x !in a
    ensures NoDuplicates(a + [x]) && Elements(a + [x]) == Elements(a) + {x}
  {
  }

  method InitialQueue(steps: seq<StepDef>, inDegree: map<string, nat>) returns (queue: seq<string>)
    requires UniqueIds(steps) && inDegree.Keys == StepIds(steps)
    ensures NoDuplicates(queue)
    ensures forall s :: s in queue <==> s in inDegree && inDegree[s] == 0
  {
    queue := [];
    for i := 0 to |steps|
      invariant NoDuplicates(queue)
      invariant forall q :: q in queue <==> q in StepIds(steps[..i]) && inDegree[q] == 0
    {
      var id := steps[i].id;
      IdIsNew(steps, i);
      assert StepIds(steps[..i + 1]) == StepIds(steps[..i]) + {id} by {
        assert steps[..i + 1] == steps[..i] + [steps[i]];
      }
      if inDegree[id] == 0 {
        assert id !in queue;
        queue := queue + [id];
      }
    }
    assert steps[..|steps|] == steps;
  }

  lemma InitialState(deps: map<string, seq<string>>, inDegree: map<string, nat>, queue: seq<string>)
    requires inDegree.Keys == deps.Keys && forall s | s in deps :: inDegree[s] == |deps[s]|
    requires NoDuplicates(queue) && forall q | q in queue :: q in deps
    requires forall s | s in deps :: s in queue <==> inDegree[s] == 0
    ensures KahnState(deps, inDegree, queue, [], [])
  {
    assert [] + queue == queue;
    forall s | s in deps ensures inDegree[s] == PendingCount(deps[s], Elements([])) {
      assert Elements<string>([]) == {};
      PendingOfNone(deps[s]);
    }
  }

  /** Decrements the in-degree of every dependent of the node just finished. */
  method PayDependents(ghost deps: map<string, seq<string>>, listed: seq<string>,
                       inDegree0: map<string, nat>, queue0: seq<string>, ghost order: seq<string>)
    returns (inDegree: map<string, nat>, queue: seq<string>)
    requires KahnState(deps, inDegree0, queue0, order, listed)
    requires forall s | s in listed :: s in deps
    ensures KahnState(deps, inDegree, queue, order, [])
  {
    inDegree, queue := inDegree0, queue0;
    assert listed[0..] == listed;
    for k := 0 to |listed|
      invariant KahnState(deps, inDegree, queue, order, listed[k..])
    {
      var dep := listed[k];
      PayOne(deps, inDegree, queue, order, listed[k..]);
      assert listed[k..][1..] == listed[k + 1..];
      inDegree := inDegree[dep := inDegree[dep] - 1];
      if inDegree[dep] == 0 {
        queue := queue + [dep];
      }
    }
    assert listed[|listed|..] == [];
  }

  method FinishFront(ghost deps: map<string, seq<string>>, listed: seq<string>,
                     inDegree0: map<string, nat>, queue0: seq<string>, order0: seq<string>)
    returns (inDegree: map<string, nat>, queue: seq<string>, order: seq<string>)
    requires KahnState(deps, inDegree0, queue0, order0, []) && queue0 != []
    requires forall s | s in listed :: s in deps
    requires forall s | s in deps :: multiset(listed)[s] == multiset(deps[s])[queue0[0]]
    ensures KahnState(deps, inDegree, queue, order, [])
    ensures deps.Keys - Elements(order) < deps.Keys - Elements(order0)
  {
    PopFront(deps, inDegree0, queue0, order0, listed);
    order := order0 + [queue0[0]];
    assert Elements(order) == Elements(order0) + {queue0[0]};
    inDegree, queue := PayDependents(deps, listed, inDegree0, queue0[1..], order);
  }

  /** The queue is empty and `order` is finished, for some in-degrees left over. */
  ghost predicate RunsDry(deps: map<string, seq<string>>, order: seq<string>) {
    exists inDegree :: KahnState(deps, inDegree, [], order, [])
  }

  method Kahn(ghost deps: map<string, seq<string>>, initialDegree: map<string, nat>,
              dependents: map<string, seq<string>>, initialQueue: seq<string>)
    returns (order: seq<string>)
    requires Recorded(deps, initialDegree, dependents)
    requires KahnState(deps, initialDegree, initialQueue, [], [])
    ensures RunsDry(deps, order)
  {
    var inDegree, queue := initialDegree, initialQueue;
    order := [];
    while queue != []
      invariant KahnState(deps, inDegree, queue, order, [])
      decreases deps.Keys - Elements(order)
    {
      inDegree, queue, order := FinishFront(deps, Listed(dependents, queue[0]), inDegree, queue, order);
    }
  }

  // ----- topo_sort

  /** When the queue runs dry too early, the nodes left over contain a cycle. */
  lemma LeftoverImpliesCycle(steps: seq<StepDef>, inDegree: map<string, nat>, order: seq<string>)
    requires DependenciesExist(steps)
    requires KahnState(DependencyLists(steps), inDegree, [], order, [])
    requires Elements(order) != StepIds(steps)
    ensures !Acyclic(StepMap(steps))
  {
    var sm, deps := StepMap(steps), DependencyLists(steps);
    assert order + [] == order;
    var stuck := sm.Keys - Elements(order);
    assert Elements(order) <= sm.Keys;
    var x :| x in sm.Keys && x !in Elements(order);
    forall a | a in stuck ensures HasDependencyIn(sm, stuck, a) {
      PendingZero(deps[a], Elements(order));
      var b :| b in deps[a] && b !in Elements(order);
      assert sm[a] in steps && b in sm[a].dependsOn;
      assert b in stuck && DependsOn(sm, a, b);
    }
    StuckSetHasCycle(sm, stuck, x);
  }

  lemma FinishedOrderIsTopological(steps: seq<StepDef>, inDegree: map<string, nat>, order: seq<string>)
    requires KahnState(DependencyLists(steps), inDegree, [], order, [])
    requires Elements(order) == StepIds(steps)
    ensures IsTopologicalOrder(steps, order)
  {
    assert order + [] == order;
    var sm, deps := StepMap(steps), DependencyLists(steps);
    forall i, d | 0 <= i < |order| && DependsOn(sm, order[i], d) ensures d in order[..i] {
      assert d in deps[order[i]];
    }
  }

  lemma {:induction false} UniqueIdsCount(steps: seq<StepDef>)
    requires UniqueIds(steps)
    ensures |StepIds(steps)| == |steps|
  {
    var ids := seq(|steps|, i requires 0 <= i < |steps| => steps[i].id);
    NoDuplicatesCount(ids);
    assert Elements(ids) == StepIds(steps) by {
      forall s | s in steps ensures s.id in ids {
        var i :| 0 <= i < |steps| && steps[i] == s;
        assert ids[i] == s.id;
      }
    }
  }

  /** The length of the finished order tells whether there is a cycle. */
  lemma FinishedLengthDecides(steps: seq<StepDef>, order: seq<string>)
    requires UniqueIds(steps) && DependenciesExist(steps) && RunsDry(DependencyLists(steps), order)
    ensures |order| == |steps| ==> IsTopologicalOrder(steps, order)
    ensures |order| != |steps| ==> !Acyclic(StepMap(steps))
  {
    var inDegree :| KahnState(DependencyLists(steps), inDegree, [], order, []);
    assert NoDuplicates(order) && Elements(order) <= StepIds(steps) by {
      assert order + [] == order;
    }
    NoDuplicatesCount(order);
    UniqueIdsCount(steps);
    if |order| == |steps| {
      SubsetOfSameSize(Elements(order), StepIds(steps));
      FinishedOrderIsTopological(steps, inDegree, order);
    } else {
      LeftoverImpliesCycle(steps, inDegree, order);
    }
  }

  method Drain(steps: seq<StepDef>) returns (order: seq<string>)
    requires UniqueIds(steps) && DependenciesExist(steps)
    ensures RunsDry(DependencyLists(steps), order)
  {
    var inDegree, dependents := BuildEdges(steps);
    var queue := InitialQueue(steps, inDegree);
    InitialState(DependencyLists(steps), inDegree, queue);
    order := Kahn(DependencyLists(steps), inDegree, dependents, queue);
  }

  /**
   * Succeeds exactly when every dependency names a step and no step depends on itself, directly
   * or not; the order then lists every step once, after all of its dependencies.
   */
  method Sort(steps: seq<StepDef>) returns (r: Result<seq<string>, GraphError>)
    requires UniqueIds(steps)
    ensures r.Success? <==> DependenciesExist(steps) && Acyclic(StepMap(steps))
    ensures r.Success? ==> IsTopologicalOrder(steps, r.value)
    ensures r == Failure(CycleDetected) <==> DependenciesExist(steps) && !Acyclic(StepMap(steps))
    ensures r.Failure? && r.error.MissingDependency? ==> ReportsFirstMissing(steps, r.error)
  {
    var missing := CheckDependencies(steps);
    if missing.Some? {
      return Failure(missing.value);
    }
    var order := Drain(steps);
    FinishedLengthDecides(steps, order);
    if |order| != |steps| {
      return Failure(CycleDetected);
    }
    TopologicalOrderImpliesAcyclic(steps, order);
    return Success(order);
  }

  lemma SubsetOfSameSize<T>(a: set<T>, b: set<T>)
    requires a <= b && |a| == |b|
    ensures a == b
  {
    if x :| x in b && x !in a {
      assert a <= b - {x};
      SubsetIsSmaller(a, b - {x});
    }
  }

  lemma {:induction false} SubsetIsSmaller<T>(a: set<T>, b: set<T>)
    requires a <= b
    ensures |a| <= |b|
  {
    if x :| x in a {
      SubsetIsSmaller(a - {x}, b - {x});
    }
  }
}
