/** The skill graph: step definitions, the dependency relation and topological orders. */
module SkillGraph {
  import opened Sequences
  import opened Wrappers

  datatype StepType = Tool | Llm

  datatype ToolCall = ToolCall(
    tool: string,
    args: string,
    template: Option<string>,
    path: Option<string>,
    condition: Option<string>)

  datatype StepDef = StepDef(
    id: string,
    stepType: StepType,
    dependsOn: seq<string>,
    parallel: bool,
    condition: Option<string>,
    tools: seq<ToolCall>,
    prompt: Option<string>)

  datatype GraphDef = GraphDef(
    steps: seq<StepDef>,
    templatesDir: Option<string>,
    inputs: map<string, string>)

  /** The variables of a run, by name. */
  type Variables = map<string, string>

  // ----- Step ids and the step map

  ghost predicate UniqueIds(steps: seq<StepDef>) {
    forall i, j | 0 <= i < j < |steps| :: steps[i].id != steps[j].id
  }

  function StepIds(steps: seq<StepDef>): set<string> {
    set s | s in steps :: s.id
  }

  /** The id-to-step map; as in a Rust `collect`, the last step with an id wins. */
  function StepMap(steps: seq<StepDef>): (m: map<string, StepDef>)
    ensures m.Keys == StepIds(steps)
    ensures forall id | id in m :: m[id] in steps && m[id].id == id
  {
    if steps == [] then map[]
    else
      var last := steps[|steps| - 1];
      StepMap(steps[..|steps| - 1])[last.id := last]
  }

  // ----- The dependency relation and its transitive closure

  ghost predicate DependsOn(sm: map<string, StepDef>, a: string, b: string) {
    a in sm && b in sm[a].dependsOn
  }

  /** `p` follows dependency edges, at least one of them. */
  ghost predicate IsPath(sm: map<string, StepDef>, p: seq<string>) {
    |p| >= 2 && forall i | 0 <= i < |p| - 1 :: DependsOn(sm, p[i], p[i + 1])
  }

  /** `b` is a transitive dependency (an ancestor) of `a`. */
  ghost predicate Reaches(sm: map<string, StepDef>, a: string, b: string) {
    exists p :: IsPath(sm, p) && p[0] == a && p[|p| - 1] == b
  }

  ghost predicate Acyclic(sm: map<string, StepDef>) {
    forall a :: !Reaches(sm, a, a)
  }

  ghost predicate DependenciesExist(steps: seq<StepDef>) {
    forall s, d | s in steps && d in s.dependsOn :: d in StepIds(steps)
  }

  lemma EdgeReaches(sm: map<string, StepDef>, a: string, b: string)
    requires DependsOn(sm, a, b)
    ensures Reaches(sm, a, b)
  {
    assert IsPath(sm, [a, b]);
  }

  lemma ReachesIsTransitive(sm: map<string, StepDef>, a: string, b: string, c: string)
    requires Reaches(sm, a, b) && Reaches(sm, b, c)
    ensures Reaches(sm, a, c)
  {
    var p :| IsPath(sm, p) && p[0] == a && p[|p| - 1] == b;
    var q :| IsPath(sm, q) && q[0] == b && q[|q| - 1] == c;
    var r := p + q[1..];
    forall i | 0 <= i < |r| - 1 ensures DependsOn(sm, r[i], r[i + 1]) {
      if i >= |p| - 1 {
        assert r[i] == q[i - |p| + 1] && r[i + 1] == q[i - |p| + 2];
      }
    }
    assert IsPath(sm, r);
  }

  /** Reaching `b` starts with one edge, and either ends there or goes on. */
  lemma ReachesFirstEdge(sm: map<string, StepDef>, a: string, b: string) returns (m: string)
    requires Reaches(sm, a, b)
    ensures DependsOn(sm, a, m)
    ensures m == b || Reaches(sm, m, b)
  {
    var p :| IsPath(sm, p) && p[0] == a && p[|p| - 1] == b;
    m := p[1];
    if |p| > 2 {
      assert IsPath(sm, p[1..]);
    }
  }

  // ----- Topological orders

  /** `order` lists every step id exactly once, each after all of its dependencies. */
  ghost predicate IsTopologicalOrder(steps: seq<StepDef>, order: seq<string>) {
    && NoDuplicates(order)
    && Elements(order) == StepIds(steps)
    && DependenciesFirst(StepMap(steps), order)
  }

  ghost predicate DependenciesFirst(sm: map<string, StepDef>, order: seq<string>) {
    forall i, d | 0 <= i < |order| && DependsOn(sm, order[i], d) :: d in order[..i]
  }

  lemma {:induction false} PathGoesBack(sm: map<string, StepDef>, order: seq<string>, p: seq<string>, i: nat)
    requires DependenciesFirst(sm, order) && IsPath(sm, p)
    requires i < |order| && order[i] == p[0]
    ensures p[|p| - 1] in order[..i]
    decreases |p|
  {
    assert DependsOn(sm, p[0], p[1]);
    var j :| 0 <= j < i && order[j] == p[1];
    if |p| > 2 {
      assert IsPath(sm, p[1..]);
      PathGoesBack(sm, order, p[1..], j);
    }
  }

  /** In a topological order every ancestor of a step stands before it. */
  lemma AncestorsStandBefore(sm: map<string, StepDef>, order: seq<string>, i: nat, b: string)
    requires DependenciesFirst(sm, order) && i < |order|
    requires Reaches(sm, order[i], b)
    ensures b in order[..i]
  {
    var p :| IsPath(sm, p) && p[0] == order[i] && p[|p| - 1] == b;
    PathGoesBack(sm, order, p, i);
  }

  /** A topological order of all steps exists only for acyclic graphs. */
  lemma TopologicalOrderImpliesAcyclic(steps: seq<StepDef>, order: seq<string>)
    requires IsTopologicalOrder(steps, order)
    ensures Acyclic(StepMap(steps))
  {
    var sm := StepMap(steps);
    forall a ensures !Reaches(sm, a, a) {
      if Reaches(sm, a, a) {
        var _ := ReachesFirstEdge(sm, a, a);
        assert a in Elements(order);
        var i :| 0 <= i < |order| && order[i] == a;
        AncestorsStandBefore(sm, order, i, a);
      }
    }
  }

  ghost function Reachable(sm: map<string, StepDef>, stuck: set<string>, x: string): set<string> {
    set b | b in stuck && Reaches(sm, x, b)
  }

  ghost predicate HasDependencyIn(sm: map<string, StepDef>, stuck: set<string>, a: string) {
    exists b :: b in stuck && DependsOn(sm, a, b)
  }

  /**
   * A set of nodes in which everyone depends on some member contains a cycle. Following one
   * such dependency shrinks the set of members that can still be reached, until a member
   * reaches itself.
   */
  lemma {:induction false} StuckSetHasCycle(sm: map<string, StepDef>, stuck: set<string>, x: string)
    requires x in stuck
    requires forall a | a in stuck :: HasDependencyIn(sm, stuck, a)
    ensures !Acyclic(sm)
    decreases Reachable(sm, stuck, x)
  {
    assert HasDependencyIn(sm, stuck, x);
    var y :| y in stuck && DependsOn(sm, x, y);
    EdgeReaches(sm, x, y);
    if !Reaches(sm, y, y) {
      assert Reachable(sm, stuck, y) < Reachable(sm, stuck, x) by {
        forall b | b in Reachable(sm, stuck, y) ensures b in Reachable(sm, stuck, x) {
          ReachesIsTransitive(sm, x, y, b);
        }
        assert y in Reachable(sm, stuck, x) && y !in Reachable(sm, stuck, y);
      }
      StuckSetHasCycle(sm, stuck, y);
    }
  }
}
