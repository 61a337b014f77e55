/** The breadth-first ancestor closure, `transitive_deps`. */
module Ancestors {
  import opened SkillGraph

  function DependenciesOf(sm: map<string, StepDef>, id: string): seq<string> {
    if id in sm then sm[id].dependsOn else []
  }

  /** Every id that some step names as a dependency. */
  ghost function Mentioned(sm: map<string, StepDef>): set<string> {
    set s, d | s in sm && d in sm[s].dependsOn :: d
  }

  /** All transitive dependencies of `id`. */
  ghost function AncestorsOf(sm: map<string, StepDef>, id: string): (r: set<string>)
    ensures forall b :: b in r <==> Reaches(sm, id, b)
  {
    forall b | Reaches(sm, id, b) ensures b in Mentioned(sm) {
      ReachedIsMentioned(sm, id, b);
    }
    set b | b in Mentioned(sm) && Reaches(sm, id, b)
  }

  lemma ReachedIsMentioned(sm: map<string, StepDef>, a: string, b: string)
    requires Reaches(sm, a, b)
    ensures b in Mentioned(sm)
  {
    var p :| IsPath(sm, p) && p[0] == a && p[|p| - 1] == b;
    assert DependsOn(sm, p[|p| - 2], p[|p| - 2 + 1]);
  }

  /** `s` holds the dependencies of `id` and, with each member, the member's dependencies. */
  ghost predicate ClosedFrom(sm: map<string, StepDef>, id: string, s: set<string>) {
    && (forall d | d in DependenciesOf(sm, id) :: d in s)
    && (forall a, d | a in s && d in DependenciesOf(sm, a) :: d in s)
  }

  lemma {:induction false} PathStaysInside(sm: map<string, StepDef>, id: string, s: set<string>, p: seq<string>)
    requires ClosedFrom(sm, id, s) && IsPath(sm, p)
    requires p[0] == id || p[0] in s
    ensures p[|p| - 1] in s
    decreases |p|
  {
    assert DependsOn(sm, p[0], p[1]);
    if |p| > 2 {
      assert IsPath(sm, p[1..]);
      PathStaysInside(sm, id, s, p[1..]);
    }
  }

  lemma ClosedSetHoldsAncestors(sm: map<string, StepDef>, id: string, s: set<string>)
    requires ClosedFrom(sm, id, s)
    ensures AncestorsOf(sm, id) <= s
  {
    forall b | b in AncestorsOf(sm, id) ensures b in s {
      var p :| IsPath(sm, p) && p[0] == id && p[|p| - 1] == b;
      PathStaysInside(sm, id, s, p);
    }
  }

  lemma StepToAncestor(sm: map<string, StepDef>, id: string, a: string, d: string)
    requires a == id || Reaches(sm, id, a)
    requires d in DependenciesOf(sm, a)
    ensures Reaches(sm, id, d)
  {
    EdgeReaches(sm, a, d);
    if a != id {
      ReachesIsTransitive(sm, id, a, d);
    }
  }

  lemma AncestorsAreClosed(sm: map<string, StepDef>, id: string)
    ensures ClosedFrom(sm, id, AncestorsOf(sm, id))
  {
    forall d | d in DependenciesOf(sm, id) ensures d in AncestorsOf(sm, id) {
      StepToAncestor(sm, id, id, d);
    }
    forall a, d | a in AncestorsOf(sm, id) && d in DependenciesOf(sm, a) ensures d in AncestorsOf(sm, id) {
      StepToAncestor(sm, id, a, d);
    }
  }

  /** What is still to be looked at lies within the ancestors; what was looked at is complete. */
  ghost predicate Searching(sm: map<string, StepDef>, id: string, visited: set<string>, queue: seq<string>) {
    && (forall a | a in visited || a in queue :: Reaches(sm, id, a))
    && (forall d | d in DependenciesOf(sm, id) :: d in visited || d in queue)
    && (forall a, d | a in visited && d in DependenciesOf(sm, a) :: d in visited || d in queue)
  }

  /** Enqueues the dependencies of `a`, in the order listed. */
  method Enqueue(sm: map<string, StepDef>, a: string, queue: seq<string>) returns (extended: seq<string>)
    ensures extended == queue + DependenciesOf(sm, a)
  {
    extended := queue;
    if a in sm {
      for k := 0 to |sm[a].dependsOn|
        invariant extended == queue + sm[a].dependsOn[..k]
      {
        extended := extended + [sm[a].dependsOn[k]];
      }
    }
  }

  /**
   * Returns the least set that holds the dependencies of `stepId` and is closed under
   * dependencies, on every step map: one with cycles and one with dangling ids included.
   */
  method TransitiveDeps(stepId: string, sm: map<string, StepDef>) returns (visited: set<string>)
    ensures visited == AncestorsOf(sm, stepId)
    ensures ClosedFrom(sm, stepId, visited)
    ensures forall s | ClosedFrom(sm, stepId, s) :: visited <= s
  {
    visited := {};
    var queue := Enqueue(sm, stepId, []);
    forall d | d in queue ensures Reaches(sm, stepId, d) {
      StepToAncestor(sm, stepId, stepId, d);
    }
    while queue != []
      invariant Searching(sm, stepId, visited, queue)
      decreases AncestorsOf(sm, stepId) - visited, |queue|
    {
      var id := queue[0];
      VisitFront(sm, stepId, visited, queue);
      queue := queue[1..];
      if id !in visited {
        assert id in AncestorsOf(sm, stepId) - visited;
        visited := visited + {id};
        queue := Enqueue(sm, id, queue);
      }
    }
    SearchIsComplete(sm, stepId, visited);
  }

  lemma VisitFront(sm: map<string, StepDef>, stepId: string, visited: set<string>, queue: seq<string>)
    requires Searching(sm, stepId, visited, queue) && queue != []
    ensures Reaches(sm, stepId, queue[0])
    ensures if queue[0] in visited then Searching(sm, stepId, visited, queue[1..])
            else Searching(sm, stepId, visited + {queue[0]}, queue[1..] + DependenciesOf(sm, queue[0]))
  {
    assert queue == [queue[0]] + queue[1..];
    forall d | d in DependenciesOf(sm, queue[0]) ensures Reaches(sm, stepId, d) {
      StepToAncestor(sm, stepId, queue[0], d);
    }
  }

  lemma SearchIsComplete(sm: map<string, StepDef>, stepId: string, visited: set<string>)
    requires Searching(sm, stepId, visited, [])
    ensures visited == AncestorsOf(sm, stepId)
    ensures ClosedFrom(sm, stepId, visited)
    ensures forall s | ClosedFrom(sm, stepId, s) :: visited <= s
  {
    assert ClosedFrom(sm, stepId, visited);
    ClosedSetHoldsAncestors(sm, stepId, visited);
    forall s | ClosedFrom(sm, stepId, s) ensures visited <= s {
      ClosedSetHoldsAncestors(sm, stepId, s);
    }
  }

  /** A step is missing from its own ancestors, for every step, exactly on acyclic graphs. */
  lemma NoStepIsItsOwnAncestor(sm: map<string, StepDef>)
    ensures (forall id | id in sm :: id !in AncestorsOf(sm, id)) <==> Acyclic(sm)
  {
    forall a | Reaches(sm, a, a) ensures a in sm {
      var _ := ReachesFirstEdge(sm, a, a);
    }
  }
}
