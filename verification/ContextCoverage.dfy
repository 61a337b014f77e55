/** What the context of an LLM step shows, and what it leaves out. */
module ContextCoverage {
  import opened Sequences
  import opened Wrappers
  import opened SkillGraph
  import opened Ancestors
  import opened LlmContext

  ghost predicate Before(order: seq<string>, x: string, y: string) {
    exists i, j :: 0 <= i < j < |order| && order[i] == x && order[j] == y
  }

  // ----- The pieces the context is made of

  lemma BeforeSnoc(order: seq<string>, last: string, x: string, y: string)
    ensures Before(order + [last], x, y) <==> Before(order, x, y) || (y == last && x in order)
  {
    var whole := order + [last];
    if i, j :| 0 <= i < j < |order| && order[i] == x && order[j] == y {
      assert whole[i] == x && whole[j] == y;
    }
    if i :| 0 <= i < |order| && order[i] == x {
      assert whole[i] == x && whole[|order|] == last;
    }
  }

  lemma Snoc(order: seq<string>) returns (init: seq<string>, last: string)
    requires order != []
    ensures order == init + [last] && init == order[..|order| - 1] && last == order[|order| - 1]
  {
    init, last := order[..|order| - 1], order[|order| - 1];
  }

  lemma {:induction false} AfterFirstMembers(order: seq<string>, b: string)
    requires NoDuplicates(order)
    ensures forall x :: x in AfterFirst(order, b) <==> Before(order, b, x)
    ensures forall i, j | 0 <= i < j < |AfterFirst(order, b)| ::
              Before(order, AfterFirst(order, b)[i], AfterFirst(order, b)[j])
  {
    if order != [] {
      var init, last := Snoc(order);
      AfterFirstMembers(init, b);
      forall x, y ensures Before(order, x, y) <==> Before(init, x, y) || (y == last && x in init) {
        BeforeSnoc(init, last, x, y);
      }
      if b in init {
        forall i | 0 <= i < |AfterFirst(init, b)| ensures AfterFirst(init, b)[i] in init {
          assert Before(init, b, AfterFirst(init, b)[i]);
        }
      } else {
        AfterMissing(init, b);
      }
    }
  }

  lemma {:induction false} FilterMembers(order: seq<string>, keep: set<string>)
    ensures forall x :: x in Filter(order, keep) <==> x in order && x in keep
    ensures forall i, j | 0 <= i < j < |Filter(order, keep)| ::
              Before(order, Filter(order, keep)[i], Filter(order, keep)[j])
  {
    if order != [] {
      var init, last := Snoc(order);
      FilterMembers(init, keep);
      forall x, y ensures Before(order, x, y) <==> Before(init, x, y) || (y == last && x in init) {
        BeforeSnoc(init, last, x, y);
      }
    }
  }

  lemma {:induction false} LastDigestIsLast(order: seq<string>, ancestors: set<string>, results: Results)
    ensures var b := LastDigest(order, ancestors, results);
            forall a | a in order && a in ancestors && IsDigest(results, a) ::
              b.Some? && (a == b.value || Before(order, a, b.value))
  {
    if order != [] {
      var init, last := Snoc(order);
      LastDigestIsLast(init, ancestors, results);
      forall x, y ensures Before(order, x, y) <==> Before(init, x, y) || (y == last && x in init) {
        BeforeSnoc(init, last, x, y);
      }
    }
  }

  lemma BeforeIsStrict(order: seq<string>, x: string, y: string)
    requires NoDuplicates(order) && Before(order, x, y)
    ensures x != y && !Before(order, y, x)
  {
  }

  lemma BeforeIsTotal(order: seq<string>, x: string, y: string)
    requires x in order && y in order && x != y
    ensures Before(order, x, y) || Before(order, y, x)
  {
    var i :| 0 <= i < |order| && order[i] == x;
    var j :| 0 <= j < |order| && order[j] == y;
  }

  /** In a topological order ancestors come first. */
  lemma AncestorsComeBefore(steps: seq<StepDef>, order: seq<string>, x: string, y: string)
    requires IsTopologicalOrder(steps, order) && Reaches(StepMap(steps), x, y)
    ensures y in order && Before(order, y, x)
  {
    var _ := ReachesFirstEdge(StepMap(steps), x, y);
    assert x in Elements(order);
    var i :| 0 <= i < |order| && order[i] == x;
    AncestorsStandBefore(StepMap(steps), order, i, y);
  }

  // ----- Main results

  ghost function Boundary(steps: seq<StepDef>, order: seq<string>, results: Results, current: string): Option<string> {
    LastDigest(order, AncestorsOf(StepMap(steps), current), results)
  }

  ghost function Shown(steps: seq<StepDef>, order: seq<string>, results: Results, current: string): seq<string> {
    ShownSteps(order, AncestorsOf(StepMap(steps), current), Boundary(steps, order, results, current))
  }

  lemma ShownExactly(steps: seq<StepDef>, order: seq<string>, results: Results, current: string)
    requires NoDuplicates(order)
    ensures var b, shown := Boundary(steps, order, results, current), Shown(steps, order, results, current);
            && (forall a :: a in shown <==> a in order && Reaches(StepMap(steps), current, a)
                                            && (b.Some? ==> Before(order, b.value, a)))
            && (forall i, j | 0 <= i < j < |shown| :: Before(order, shown[i], shown[j]))
  {
    var ancestors, b := AncestorsOf(StepMap(steps), current), Boundary(steps, order, results, current);
    match b {
      case None => FilterMembers(order, ancestors);
      case Some(d) =>
        var tail := AfterFirst(order, d);
        AfterFirstMembers(order, d);
        FilterMembers(tail, ancestors - {d});
        forall x, y | Before(tail, x, y) ensures Before(order, x, y) {
          var i, j :| 0 <= i < j < |tail| && tail[i] == x && tail[j] == y;
        }
        forall a | Before(order, d, a) ensures a != d && a in order {
          BeforeIsStrict(order, d, a);
        }
    }
  }

  /**
   * The boundary is the last LLM ancestor that ran. The ancestors after it, and only those, are
   * shown in full, in execution order; the boundary depends on none of them and none of them is
   * an LLM step that ran. Without a boundary every ancestor is shown.
   */
  lemma ContextMeaning(steps: seq<StepDef>, order: seq<string>, results: Results, current: string)
    requires IsTopologicalOrder(steps, order)
    ensures var sm, b := StepMap(steps), Boundary(steps, order, results, current);
            var shown := Shown(steps, order, results, current);
            && (forall i, j | 0 <= i < j < |shown| :: Before(order, shown[i], shown[j]))
            && (forall a | a in shown :: Reaches(sm, current, a) && !IsDigest(results, a))
            && (b.None? ==> forall a | Reaches(sm, current, a) && a in sm :: a in shown)
            && (b.Some? ==>
                  && Reaches(sm, current, b.value) && IsDigest(results, b.value)
                  && (forall a | a in shown :: !Reaches(sm, b.value, a) && a != b.value)
                  && (forall a | Reaches(sm, current, a) && a in sm ::
                        a in shown || a == b.value || Before(order, a, b.value)))
  {
    var sm, b := StepMap(steps), Boundary(steps, order, results, current);
    var shown := Shown(steps, order, results, current);
    ShownExactly(steps, order, results, current);
    LastDigestIsLast(order, AncestorsOf(sm, current), results);
    assert forall a :: a in sm <==> a in Elements(order);
    forall a | a in shown ensures !IsDigest(results, a) {
      if b.Some? {
        BeforeIsStrict(order, b.value, a);
      }
    }
    if b.Some? {
      forall a | a in shown ensures a != b.value && !Reaches(sm, b.value, a) {
        BeforeIsStrict(order, b.value, a);
        if Reaches(sm, b.value, a) {
          AncestorsComeBefore(steps, order, b.value, a);
        }
      }
      forall a | Reaches(sm, current, a) && a in sm
        ensures a in shown || a == b.value || Before(order, a, b.value)
      {
        if a != b.value {
          BeforeIsTotal(order, a, b.value);
        }
      }
    }
  }

  /** An ancestor that is neither the boundary nor shown, and that the boundary does not depend on. */
  ghost predicate Lost(steps: seq<StepDef>, order: seq<string>, results: Results, current: string, a: string) {
    var sm, b := StepMap(steps), Boundary(steps, order, results, current);
    && a in sm && Reaches(sm, current, a)
    && a !in Shown(steps, order, results, current)
    && b != Some(a) && (b.Some? ==> !Reaches(sm, b.value, a))
  }

  /** An ancestor is lost exactly when it precedes the boundary in the order without being upstream of it. */
  lemma LostExactly(steps: seq<StepDef>, order: seq<string>, results: Results, current: string, a: string)
    requires IsTopologicalOrder(steps, order) && a in StepMap(steps) && Reaches(StepMap(steps), current, a)
    ensures var b := Boundary(steps, order, results, current);
            Lost(steps, order, results, current, a)
            <==> b.Some? && Before(order, a, b.value) && !Reaches(StepMap(steps), b.value, a)
  {
    var b := Boundary(steps, order, results, current);
    ContextMeaning(steps, order, results, current);
    ShownExactly(steps, order, results, current);
    if b.Some? && Before(order, a, b.value) {
      BeforeIsStrict(order, a, b.value);
    }
  }

  ghost predicate AncestorsFormChain(sm: map<string, StepDef>, current: string) {
    forall a, b | Reaches(sm, current, a) && Reaches(sm, current, b) ::
      a == b || Reaches(sm, a, b) || Reaches(sm, b, a)
  }

  /** Along a chain the steps left out are exactly what lies upstream of the boundary: nothing is lost. */
  lemma ChainLosesNothing(steps: seq<StepDef>, order: seq<string>, results: Results, current: string, a: string)
    requires IsTopologicalOrder(steps, order) && AncestorsFormChain(StepMap(steps), current)
    requires a in StepMap(steps) && Reaches(StepMap(steps), current, a)
    ensures !Lost(steps, order, results, current, a)
    ensures var b := Boundary(steps, order, results, current);
            a !in Shown(steps, order, results, current)
            <==> b.Some? && (a == b.value || Reaches(StepMap(steps), b.value, a))
  {
    var sm, b := StepMap(steps), Boundary(steps, order, results, current);
    ContextMeaning(steps, order, results, current);
    LostExactly(steps, order, results, current, a);
    if b.Some? && a != b.value && Before(order, a, b.value) {
      BeforeIsStrict(order, a, b.value);
      if Reaches(sm, a, b.value) {
        AncestorsComeBefore(steps, order, a, b.value);
      }
    }
  }

  // ----- Graphs and orders that never lose a step

  ghost predicate TypesMatch(sm: map<string, StepDef>, results: Results) {
    forall id | id in results :: id in sm && results[id].stepType == sm[id].stepType
  }

  ghost predicate IsAncestor(sm: map<string, StepDef>, current: string, a: string) {
    a in sm && Reaches(sm, current, a)
  }

  /** Every LLM ancestor depends on each ancestor that stands before it. */
  ghost predicate DigestsAllBefore(sm: map<string, StepDef>, order: seq<string>, current: string) {
    forall a, b | IsAncestor(sm, current, a) && IsAncestor(sm, current, b) && sm[b].stepType == Llm
                  && Before(order, a, b) ::
      Reaches(sm, b, a)
  }

  /** The run in which `b` is the only step that is not skipped. */
  ghost function OnlyRan(sm: map<string, StepDef>, b: string): Results {
    map id | id in sm :: StepResult(id, sm[id].stepType, id != b, [], None)
  }

  lemma OnlyDigest(steps: seq<StepDef>, order: seq<string>, current: string, b: string)
    requires IsTopologicalOrder(steps, order)
    requires IsAncestor(StepMap(steps), current, b) && StepMap(steps)[b].stepType == Llm
    ensures Boundary(steps, order, OnlyRan(StepMap(steps), b), current) == Some(b)
  {
    var sm := StepMap(steps);
    assert b in Elements(order);
    LastDigestIsLast(order, AncestorsOf(sm, current), OnlyRan(sm, b));
  }

  /**
   * A graph and an order lose no step in any run, whatever is skipped, exactly when every LLM ancestor
   * depends on each ancestor before it. Both can be seen before the run.
   */
  lemma NothingIsEverLostIff(steps: seq<StepDef>, order: seq<string>, current: string)
    requires IsTopologicalOrder(steps, order)
    ensures (forall results, a | TypesMatch(StepMap(steps), results) :: !Lost(steps, order, results, current, a))
       <==> DigestsAllBefore(StepMap(steps), order, current)
  {
    var sm := StepMap(steps);
    if DigestsAllBefore(sm, order, current) {
      forall results, a | TypesMatch(sm, results) && IsAncestor(sm, current, a)
        ensures !Lost(steps, order, results, current, a)
      {
        LostExactly(steps, order, results, current, a);
        ContextMeaning(steps, order, results, current);
      }
    } else {
      var a, b :| IsAncestor(sm, current, a) && IsAncestor(sm, current, b) && sm[b].stepType == Llm
                  && Before(order, a, b) && !Reaches(sm, b, a);
      OnlyDigest(steps, order, current, b);
      LostExactly(steps, order, OnlyRan(sm, b), current, a);
      assert TypesMatch(sm, OnlyRan(sm, b));
    }
  }

  // ----- A branching graph that loses a step

  function Plain(id: string, stepType: StepType, dependsOn: seq<string>): StepDef {
    StepDef(id, stepType, dependsOn, false, None, [], None)
  }

  const BRANCHING := [Plain("scan", Tool, []), Plain("plan", Llm, []), Plain("decide", Llm, ["scan", "plan"])]

  const PLAN_RAN: Results := map[
    "scan" := StepResult("scan", Tool, false, [], None),
    "plan" := StepResult("plan", Llm, false, [], Some("ok"))]

  const BRANCHING_ORDER := ["scan", "plan", "decide"]

  /**
   * The design promises full results for steps that the boundary has not digested. With two
   * parallel branches that fails: `plan` never saw `scan`, yet `decide` is not shown it.
   */
  lemma ParallelBranchIsLost()
    ensures IsTopologicalOrder(BRANCHING, BRANCHING_ORDER)
    ensures Lost(BRANCHING, BRANCHING_ORDER, PLAN_RAN, "decide", "scan")
  {
    BranchingMap();
    BranchingIsOrdered();
    BranchingBoundary();
    EdgeReaches(StepMap(BRANCHING), "decide", "scan");
    assert Before(BRANCHING_ORDER, "scan", "plan") by {
      assert BRANCHING_ORDER[0] == "scan" && BRANCHING_ORDER[1] == "plan";
    }
    if Reaches(StepMap(BRANCHING), "plan", "scan") {
      var _ := ReachesFirstEdge(StepMap(BRANCHING), "plan", "scan");
    }
    LostExactly(BRANCHING, BRANCHING_ORDER, PLAN_RAN, "decide", "scan");
  }

  lemma BranchingIsOrdered()
    ensures IsTopologicalOrder(BRANCHING, BRANCHING_ORDER)
  {
    BranchingMap();
    var sm, order := StepMap(BRANCHING), BRANCHING_ORDER;
    assert Elements(order) == {"scan", "plan", "decide"};
    forall i, d | 0 <= i < |order| && DependsOn(sm, order[i], d) ensures d in order[..i] {
      assert order[..2][0] == "scan" && order[..2][1] == "plan";
    }
  }

  lemma BranchingBoundary()
    ensures Boundary(BRANCHING, BRANCHING_ORDER, PLAN_RAN, "decide") == Some("plan")
  {
    var sm, order := StepMap(BRANCHING), BRANCHING_ORDER;
    var ancestors := AncestorsOf(sm, "decide");
    assert "plan" in ancestors by {
      BranchingMap();
      EdgeReaches(sm, "decide", "plan");
    }
    assert "decide" !in ancestors by {
      BranchingIsOrdered();
      TopologicalOrderImpliesAcyclic(BRANCHING, order);
    }
    assert order[..2] == ["scan", "plan"];
    assert LastDigest(order[..2], ancestors, PLAN_RAN) == Some("plan");
  }

  lemma BranchingMap()
    ensures StepMap(BRANCHING) ==
            map["scan" := BRANCHING[0], "plan" := BRANCHING[1], "decide" := BRANCHING[2]]
  {
    assert BRANCHING[..2] == [BRANCHING[0], BRANCHING[1]];
    assert BRANCHING[..2][..1] == [BRANCHING[0]];
    assert [BRANCHING[0]][..0] == [];
    assert StepMap([]) == map[];
    assert StepMap([BRANCHING[0]]) == map["scan" := BRANCHING[0]];
    assert StepMap(BRANCHING[..2]) == map["scan" := BRANCHING[0], "plan" := BRANCHING[1]];
  }
}
