/** Running a skill graph: tool calls, LLM steps and the walk along the execution order. */
module GraphExecutor {
  import opened Sequences
  import opened Wrappers
  import opened SkillGraph
  import opened TopoSort
  import opened Ancestors
  import opened Conditions
  import opened Templates
  import opened LlmContext
  import opened ContextCoverage

  // ----- The outside world

  /** What bash, a file read or a file write answered. */
  datatype Reply = Done(stdout: string, stderr: string, exitCode: int) | Error(message: string)

  datatype Request = RunBash(command: string) | WriteFile(path: string, content: string) | ReadFile(path: string)

  /** The reply to one tool call, and the contents of the template file it names. */
  datatype ToolIo = ToolIo(reply: Reply, template: Result<string, string>)

  /** Arbitrary answers, indexed by the position of the step and of the tool call within it. */
  datatype World = World(
    toolIo: (nat, nat) -> ToolIo,
    llm: nat -> Result<string, string>,
    extract: (string, string) -> map<string, string>)

  // ----- One tool call

  predicate Skips(vars: map<string, string>, condition: Option<string>) {
    condition.Some? && !EvalCondition(vars, condition.value)
  }

  function Completed(tool: string, args: string, reply: Reply): ToolResult {
    match reply
    case Done(stdout, stderr, exitCode) => ToolResult(tool, args, stdout, stderr, exitCode, false)
    case Error(message) => ToolResult(tool, args, "", "execution error: " + message, -1, false)
  }

  function TemplateUnreadable(tool: string, name: string, message: string): ToolResult {
    ToolResult(tool, "template: " + name, "", "failed to read template " + name + ": " + message, 1, false)
  }

  function PathText(tool: ToolCall, args: string): string {
    match tool.path
    case Some(path) => path
    case None => args
  }

  /**
   * What one tool call asks of the world and reports. `tr.args` is the expanded argument string;
   * for a file write the content is the expanded template or, without one, the expanded
   * arguments expanded once more.
   */
  ghost predicate ToolOutcome(vars: map<string, string>, tool: ToolCall, io: ToolIo, tr: ToolResult,
                              request: Option<Request>)
  {
    if Skips(vars, tool.condition) then
      request.None? && tr == ToolResult(tool.tool, tool.args, "", "", 0, true)
    else if tool.tool == "write_file" && tool.template.Some? && io.template.Failure? then
      request.None? && tr == TemplateUnreadable(tool.tool, tool.template.value, io.template.error)
    else
      && Expands(vars, tool.args, tr.args)
      && if tool.tool == "bash" then
           request == Some(RunBash(tr.args)) && tr == Completed(tool.tool, tr.args, io.reply)
         else if tool.tool == "write_file" then
           && request.Some? && request.value.WriteFile?
           && Expands(vars, PathText(tool, tr.args), request.value.path)
           && Expands(vars, if tool.template.Some? then io.template.value else tr.args, request.value.content)
           && tr == Completed(tool.tool, tr.args, io.reply)
         else if tool.tool == "read_file" then
           && request.Some? && request.value.ReadFile?
           && Expands(vars, PathText(tool, tr.args), request.value.path)
           && tr == Completed(tool.tool, tr.args, io.reply)
         else
           request.None? && tr == Completed(tool.tool, tr.args, Done("", "unknown tool: " + tool.tool, 127))
  }

  method ExecTool(tool: ToolCall, vars: map<string, string>, io: ToolIo)
    returns (tr: ToolResult, request: Option<Request>)
    ensures ToolOutcome(vars, tool, io, tr, request)
  {
    if tool.condition.Some? && !EvalCondition(vars, tool.condition.value) {
      return ToolResult(tool.tool, tool.args, "", "", 0, true), None;
    }
    var args := ExpandTemplate(vars, tool.args);
    match tool.tool {
      case "bash" =>
        return Completed(tool.tool, args, io.reply), Some(RunBash(args));
      case "write_file" =>
        var path := ExpandTemplate(vars, PathText(tool, args));
        var content;
        if tool.template.Some? {
          match io.template {
            case Success(text) => content := ExpandTemplate(vars, text);
            case Failure(message) =>
              return TemplateUnreadable(tool.tool, tool.template.value, message), None;
          }
        } else {
          content := ExpandTemplate(vars, args);
        }
        return Completed(tool.tool, args, io.reply), Some(WriteFile(path, content));
      case "read_file" =>
        var path := ExpandTemplate(vars, PathText(tool, args));
        return Completed(tool.tool, args, io.reply), Some(ReadFile(path));
      case other =>
        return Completed(tool.tool, args, Done("", "unknown tool: " + other, 127)), None;
    }
  }

  /** The double expansion of a file's content is harmless: it is one simultaneous substitution. */
  lemma WrittenContentIsSubstitution(vars: map<string, string>, tool: ToolCall, io: ToolIo, tr: ToolResult,
                                     request: Option<Request>)
    requires ToolOutcome(vars, tool, io, tr, request) && !tr.skipped
    requires tool.tool == "write_file" && tool.template.None?
    requires SafeVariables(vars) && !Nested(tool.args)
    ensures request.Some? && request.value.WriteFile?
    ensures request.value.content == Substitute(vars, tool.args) == tr.args
    ensures tool.path.None? ==> request.value.path == request.value.content
  {
    ExpandTwiceIsOnce(vars, tool.args, tr.args, request.value.content);
    if tool.path.None? {
      ExpandTwiceIsOnce(vars, tool.args, tr.args, request.value.path);
    }
  }

  // ----- The tool calls of one step

  ghost predicate ToolOutcomes(vars: map<string, string>, tools: seq<ToolCall>, k: nat, world: World,
                               trs: seq<ToolResult>, requests: seq<Option<Request>>)
  {
    && |trs| == |requests| == |tools|
    && forall j: nat | j < |tools| :: ToolOutcome(vars, tools[j], world.toolIo(k, j), trs[j], requests[j])
  }

  method ExecSequentially(tools: seq<ToolCall>, vars: map<string, string>, k: nat, world: World)
    returns (trs: seq<ToolResult>, requests: seq<Option<Request>>)
    ensures ToolOutcomes(vars, tools, k, world, trs, requests)
  {
    trs, requests := [], [];
    for j := 0 to |tools|
      invariant ToolOutcomes(vars, tools[..j], k, world, trs, requests)
    {
      var tr, request := ExecTool(tools[j], vars, world.toolIo(k, j));
      OneMoreOutcome(vars, tools, j, k, world, trs, requests, tr, request);
      trs, requests := trs + [tr], requests + [request];
    }
    assert tools[..|tools|] == tools;
  }

  lemma OneMoreOutcome(vars: map<string, string>, tools: seq<ToolCall>, j: nat, k: nat, world: World,
                       trs: seq<ToolResult>, requests: seq<Option<Request>>, tr: ToolResult, request: Option<Request>)
    requires j < |tools| && ToolOutcomes(vars, tools[..j], k, world, trs, requests)
    requires ToolOutcome(vars, tools[j], world.toolIo(k, j), tr, request)
    ensures ToolOutcomes(vars, tools[..j + 1], k, world, trs + [tr], requests + [request])
  {
    forall i: nat | i < j + 1
      ensures ToolOutcome(vars, tools[..j + 1][i], world.toolIo(k, i), (trs + [tr])[i], (requests + [request])[i])
    {
      if i < j {
        assert tools[..j][i] == tools[i];
      }
    }
  }

  function Indices(n: nat): (r: set<nat>)
    ensures forall j: nat :: j in r <==> j < n
  {
    if n == 0 then {} else Indices(n - 1) + {n - 1}
  }

  method Unslot<A, B>(n: nat, slots: map<nat, (A, B)>) returns (xs: seq<A>, ys: seq<B>)
    requires forall j: nat | j < n :: j in slots
    ensures |xs| == |ys| == n
    ensures forall j: nat | j < n :: xs[j] == slots[j].0 && ys[j] == slots[j].1
  {
    xs, ys := [], [];
    for j := 0 to n
      invariant |xs| == |ys| == j
      invariant forall i: nat | i < j :: xs[i] == slots[i].0 && ys[i] == slots[i].1
    {
      xs, ys := xs + [slots[j].0], ys + [slots[j].1];
    }
  }

  /** The calls finish in any order; each result goes to the slot of its call. */
  method ExecInParallel(tools: seq<ToolCall>, vars: map<string, string>, k: nat, world: World)
    returns (trs: seq<ToolResult>, requests: seq<Option<Request>>)
    ensures ToolOutcomes(vars, tools, k, world, trs, requests)
  {
    var slots: map<nat, (ToolResult, Option<Request>)> := map[];
    var running := Indices(|tools|);
    while running != {}
      invariant running + slots.Keys == Indices(|tools|)
      invariant SlotsFilled(vars, tools, k, world, slots)
      decreases running
    {
      var j :| j in running;
      var tr, request := ExecTool(tools[j], vars, world.toolIo(k, j));
      slots, running := slots[j := (tr, request)], running - {j};
    }
    trs, requests := Unslot(|tools|, slots);
  }

  ghost predicate SlotsFilled(vars: map<string, string>, tools: seq<ToolCall>, k: nat, world: World,
                              slots: map<nat, (ToolResult, Option<Request>)>)
  {
    forall j: nat | j in slots ::
      j < |tools| && ToolOutcome(vars, tools[j], world.toolIo(k, j), slots[j].0, slots[j].1)
  }

  // ----- One step

  /** What a step saw and asked: the variables it started from, its tool requests, its prompt. */
  datatype StepTrace = StepTrace(vars: map<string, string>, requests: seq<Option<Request>>, prompt: Option<string>)

  const DEFAULT_PROMPT := "Analyze the results from previous steps."

  function PromptTemplate(step: StepDef): string {
    match step.prompt
    case Some(prompt) => prompt
    case None => DEFAULT_PROMPT
  }

  function FullPrompt(context: string, task: string): string {
    "# Context from previous steps\n\n" + context + "\n\n# Your task\n\n" + task
  }

  ghost predicate Prompted(vars: map<string, string>, step: StepDef, context: string, prompt: string) {
    exists task :: Expands(vars, PromptTemplate(step), task) && prompt == FullPrompt(context, task)
  }

  function LlmOutput(answer: Result<string, string>): string {
    match answer
    case Success(output) => output
    case Failure(message) => "ERROR: " + message
  }

  ghost predicate StepOutcome(step: StepDef, k: nat, world: World, context: string, trace: StepTrace,
                              result: StepResult)
  {
    if Skips(trace.vars, step.condition) then
      result == StepResult(step.id, step.stepType, true, [], None) && trace.requests == [] && trace.prompt.None?
    else match step.stepType
      case Tool =>
        && result == StepResult(step.id, Tool, false, result.toolResults, None) && trace.prompt.None?
        && ToolOutcomes(trace.vars, step.tools, k, world, result.toolResults, trace.requests)
      case Llm =>
        && result == StepResult(step.id, Llm, false, [], Some(LlmOutput(world.llm(k)))) && trace.requests == []
        && trace.prompt.Some? && Prompted(trace.vars, step, context, trace.prompt.value)
  }

  /** Only an LLM step that ran and answered changes the variables. */
  function VariablesAfter(step: StepDef, k: nat, world: World, vars: map<string, string>): map<string, string> {
    if !Skips(vars, step.condition) && step.stepType == Llm && world.llm(k).Success?
    then vars + world.extract(step.id, world.llm(k).value)
    else vars
  }

  method ExecTools(step: StepDef, k: nat, vars: map<string, string>, world: World)
    returns (trs: seq<ToolResult>, requests: seq<Option<Request>>)
    ensures ToolOutcomes(vars, step.tools, k, world, trs, requests)
  {
    if step.parallel && |step.tools| > 1 {
      trs, requests := ExecInParallel(step.tools, vars, k, world);
    } else {
      trs, requests := ExecSequentially(step.tools, vars, k, world);
    }
  }

  method BuildPrompt(step: StepDef, steps: seq<StepDef>, order: seq<string>, results: Results,
                     vars: map<string, string>)
    returns (prompt: string)
    ensures Prompted(vars, step, ContextFor(steps, order, results, step.id), prompt)
  {
    var context := Build(results, step.id, steps, order);
    var task := ExpandTemplate(vars, PromptTemplate(step));
    prompt := FullPrompt(context, task);
  }

  method ExecToolStep(step: StepDef, k: nat, vars: map<string, string>, world: World, ghost context: string)
    returns (result: StepResult, trace: StepTrace)
    requires step.stepType == Tool && !Skips(vars, step.condition)
    ensures StepOutcome(step, k, world, context, trace, result) && trace.vars == vars
  {
    var trs, requests := ExecTools(step, k, vars, world);
    result := StepResult(step.id, Tool, false, trs, None);
    trace := StepTrace(vars, requests, None);
  }

  method ExecLlmStep(step: StepDef, k: nat, steps: seq<StepDef>, order: seq<string>, results: Results,
                     vars: map<string, string>, world: World)
    returns (result: StepResult, trace: StepTrace)
    requires step.stepType == Llm && !Skips(vars, step.condition)
    ensures StepOutcome(step, k, world, ContextFor(steps, order, results, step.id), trace, result)
    ensures trace.vars == vars
  {
    var prompt := BuildPrompt(step, steps, order, results, vars);
    trace := StepTrace(vars, [], Some(prompt));
    result := StepResult(step.id, Llm, false, [], Some(LlmOutput(world.llm(k))));
  }

  method ExecStep(step: StepDef, k: nat, steps: seq<StepDef>, order: seq<string>, results: Results,
                  vars: map<string, string>, world: World)
    returns (result: StepResult, trace: StepTrace, newVars: map<string, string>)
    ensures StepOutcome(step, k, world, ContextFor(steps, order, results, step.id), trace, result)
    ensures trace.vars == vars && newVars == VariablesAfter(step, k, world, vars)
  {
    newVars := vars;
    if step.condition.Some? && !EvalCondition(vars, step.condition.value) {
      result := StepResult(step.id, step.stepType, true, [], None);
      trace := StepTrace(vars, [], None);
      return;
    }
    match step.stepType {
      case Tool =>
        result, trace := ExecToolStep(step, k, vars, world, ContextFor(steps, order, results, step.id));
      case Llm =>
        result, trace := ExecLlmStep(step, k, steps, order, results, vars, world);
        if world.llm(k).Success? {
          newVars := vars + world.extract(step.id, world.llm(k).value);
        }
    }
  }

  // ----- A whole run

  ghost function ContextFor(steps: seq<StepDef>, order: seq<string>, results: Results, id: string): string {
    Render(ContextParts(results, AncestorsOf(StepMap(steps), id), order))
  }

  /** The variables the `j`-th step of the order starts from. */
  ghost function VarsBefore(sm: map<string, StepDef>, order: seq<string>, world: World,
                            init: map<string, string>, j: nat): map<string, string>
    requires j <= |order| && forall i | 0 <= i < |order| :: order[i] in sm
  {
    if j == 0 then init
    else VariablesAfter(sm[order[j - 1]], j - 1, world, VarsBefore(sm, order, world, init, j - 1))
  }

  /**
   * The first `|trace|` steps of the order have run: each left one result under its id, its
   * outcome is explained by the results recorded in `results`, and the variables were handed on
   * from step to step.
   */
  ghost predicate RunSoFar(steps: seq<StepDef>, order: seq<string>, world: World, init: map<string, string>,
                           results: Results, vars: map<string, string>,
                           progress: seq<StepResult>, trace: seq<StepTrace>)
  {
    && |progress| == |trace| <= |order|
    && (forall j | 0 <= j < |order| :: order[j] in StepMap(steps))
    && ResultsRecorded(order, results, progress)
    && OutcomesExplained(steps, order, world, results, progress, trace)
    && VariablesHandedOn(StepMap(steps), order, world, init, vars, trace)
  }

  ghost predicate ResultsRecorded(order: seq<string>, results: Results, progress: seq<StepResult>)
    requires |progress| <= |order|
  {
    && results.Keys == Elements(order[..|progress|])
    && forall j: nat | j < |progress| :: order[j] in results && results[order[j]] == progress[j]
  }

  ghost predicate OutcomesExplained(steps: seq<StepDef>, order: seq<string>, world: World, results: Results,
                                    progress: seq<StepResult>, trace: seq<StepTrace>)
    requires |progress| == |trace| <= |order|
    requires forall j | 0 <= j < |order| :: order[j] in StepMap(steps)
  {
    forall j: nat | j < |trace| ::
      StepOutcome(StepMap(steps)[order[j]], j, world, ContextFor(steps, order, results, order[j]),
                  trace[j], progress[j])
  }

  ghost predicate VariablesHandedOn(sm: map<string, StepDef>, order: seq<string>, world: World,
                                    init: map<string, string>, vars: map<string, string>, trace: seq<StepTrace>)
    requires |trace| <= |order| && forall j | 0 <= j < |order| :: order[j] in sm
  {
    && vars == VarsBefore(sm, order, world, init, |trace|)
    && forall j: nat | j < |trace| :: trace[j].vars == VarsBefore(sm, order, world, init, j)
  }

  ghost predicate AgreeOn(r1: Results, r2: Results, ids: set<string>) {
    forall a | a in ids :: (a in r1 <==> a in r2) && (a in r1 ==> r1[a] == r2[a])
  }

  lemma {:induction false} SameDigest(order: seq<string>, ids: set<string>, r1: Results, r2: Results)
    requires AgreeOn(r1, r2, ids)
    ensures LastDigest(order, ids, r1) == LastDigest(order, ids, r2)
  {
    if order != [] {
      SameDigest(order[..|order| - 1], ids, r1, r2);
    }
  }

  lemma {:induction false} SameResults(shown: seq<string>, ids: set<string>, r1: Results, r2: Results)
    requires AgreeOn(r1, r2, ids) && forall a | a in shown :: a in ids
    ensures ResultsOf(r1, shown) == ResultsOf(r2, shown)
  {
    if shown != [] {
      assert shown[|shown| - 1] in shown;
      SameResults(shown[..|shown| - 1], ids, r1, r2);
    }
  }

  lemma ShownAreAncestors(order: seq<string>, ids: set<string>, b: Option<string>)
    ensures forall a | a in ShownSteps(order, ids, b) :: a in ids
  {
    match b {
      case None => FilterMembers(order, ids);
      case Some(d) => FilterMembers(AfterFirst(order, d), ids - {d});
    }
  }

  /** The context depends on nothing but the results of the ancestors. */
  lemma ContextReadsAncestorsOnly(order: seq<string>, ids: set<string>, r1: Results, r2: Results)
    requires AgreeOn(r1, r2, ids)
    ensures ContextParts(r1, ids, order) == ContextParts(r2, ids, order)
  {
    SameDigest(order, ids, r1, r2);
    ShownAreAncestors(order, ids, LastDigest(order, ids, r1));
    SameResults(ShownSteps(order, ids, LastDigest(order, ids, r1)), ids, r1, r2);
  }

  /** Recording the result of step `k` changes the context of no step up to and including `k`. */
  lemma LaterResultsDoNotMatter(steps: seq<StepDef>, order: seq<string>, results: Results, k: nat, result: StepResult,
                                j: nat)
    requires IsTopologicalOrder(steps, order) && j <= k < |order|
    ensures ContextFor(steps, order, results, order[j])
            == ContextFor(steps, order, results[order[k] := result], order[j])
  {
    var ancestors := AncestorsOf(StepMap(steps), order[j]);
    if order[k] in ancestors {
      AncestorsStandBefore(StepMap(steps), order, j, order[k]);
    }
    ContextReadsAncestorsOnly(order, ancestors, results, results[order[k] := result]);
  }

  lemma ExtendRun(steps: seq<StepDef>, order: seq<string>, world: World, init: map<string, string>,
                  results: Results, vars: map<string, string>, progress: seq<StepResult>, trace: seq<StepTrace>,
                  result: StepResult, t: StepTrace, newVars: map<string, string>)
    requires IsTopologicalOrder(steps, order) && |trace| < |order|
    requires RunSoFar(steps, order, world, init, results, vars, progress, trace)
    requires var k := |trace|; var step := StepMap(steps)[order[k]];
             && StepOutcome(step, k, world, ContextFor(steps, order, results, order[k]), t, result)
             && t.vars == vars && newVars == VariablesAfter(step, k, world, vars)
    ensures RunSoFar(steps, order, world, init, results[order[|trace|] := result], newVars,
                     progress + [result], trace + [t])
  {
    var id := order[|trace|];
    assert ResultsRecorded(order, results[id := result], progress + [result]) by {
      ExtendResults(order, results, progress, result);
    }
    assert OutcomesExplained(steps, order, world, results[id := result], progress + [result], trace + [t]) by {
      ExtendOutcomes(steps, order, world, results, progress, trace, result, t);
    }
    assert VariablesHandedOn(StepMap(steps), order, world, init, newVars, trace + [t]) by {
      ExtendVariables(StepMap(steps), order, world, init, vars, trace, t, newVars);
    }
  }

  lemma ExtendResults(order: seq<string>, results: Results, progress: seq<StepResult>, result: StepResult)
    requires NoDuplicates(order) && |progress| < |order| && ResultsRecorded(order, results, progress)
    ensures ResultsRecorded(order, results[order[|progress|] := result], progress + [result])
  {
    assert order[..|progress| + 1] == order[..|progress|] + [order[|progress|]];
  }

  lemma ExtendOutcomes(steps: seq<StepDef>, order: seq<string>, world: World, results: Results,
                       progress: seq<StepResult>, trace: seq<StepTrace>, result: StepResult, t: StepTrace)
    requires IsTopologicalOrder(steps, order) && |progress| == |trace| < |order|
    requires forall j | 0 <= j < |order| :: order[j] in StepMap(steps)
    requires OutcomesExplained(steps, order, world, results, progress, trace)
    requires StepOutcome(StepMap(steps)[order[|trace|]], |trace|, world,
                         ContextFor(steps, order, results, order[|trace|]), t, result)
    ensures OutcomesExplained(steps, order, world, results[order[|trace|] := result], progress + [result], trace + [t])
  {
    forall j: nat | j <= |trace|
      ensures ContextFor(steps, order, results, order[j])
              == ContextFor(steps, order, results[order[|trace|] := result], order[j])
    {
      LaterResultsDoNotMatter(steps, order, results, |trace|, result, j);
    }
  }

  lemma ExtendVariables(sm: map<string, StepDef>, order: seq<string>, world: World, init: map<string, string>,
                        vars: map<string, string>, trace: seq<StepTrace>, t: StepTrace, newVars: map<string, string>)
    requires |trace| < |order| && forall j | 0 <= j < |order| :: order[j] in sm
    requires VariablesHandedOn(sm, order, world, init, vars, trace)
    requires t.vars == vars && newVars == VariablesAfter(sm[order[|trace|]], |trace|, world, vars)
    ensures VariablesHandedOn(sm, order, world, init, newVars, trace + [t])
  {
    var longer := trace + [t];
    forall j: nat | j < |longer| ensures longer[j].vars == VarsBefore(sm, order, world, init, j) {
      if j == |trace| {
        assert longer[j] == t;
      }
    }
  }

  /** The variables a run starts with: the graph's defaults, then the caller's, then the working directory. */
  function InitialVariables(graph: GraphDef, workDir: string, inputs: Option<map<string, string>>)
    : map<string, string>
  {
    (match inputs
     case Some(vars) => graph.inputs + vars
     case None => graph.inputs)["work_dir" := workDir]
  }

  /** The working directory is set, the caller's values win over the defaults, and nothing else is there. */
  ghost predicate Seeded(graph: GraphDef, workDir: string, inputs: Option<map<string, string>>,
                         vars: map<string, string>)
  {
    && "work_dir" in vars && vars["work_dir"] == workDir
    && forall k | k != "work_dir" ::
         if inputs.Some? && k in inputs.value then k in vars && vars[k] == inputs.value[k]
         else if k in graph.inputs then k in vars && vars[k] == graph.inputs[k]
         else k !in vars
  }

  lemma InitialAreSeeded(graph: GraphDef, workDir: string, inputs: Option<map<string, string>>)
    ensures Seeded(graph, workDir, inputs, InitialVariables(graph, workDir, inputs))
  {
  }

  // ----- Where the variables come from

  /** What step `j` puts into the variables: the extract of its answer, for an LLM step that ran and answered. */
  function Extracted(sm: map<string, StepDef>, order: seq<string>, world: World, progress: seq<StepResult>, j: nat)
    : map<string, string>
    requires j < |progress| <= |order| && order[j] in sm
  {
    if sm[order[j]].stepType == Llm && !progress[j].skipped && world.llm(j).Success?
    then world.extract(order[j], world.llm(j).value)
    else map[]
  }

  ghost function Extracts(sm: map<string, StepDef>, order: seq<string>, world: World, progress: seq<StepResult>)
    : seq<map<string, string>>
    requires |progress| <= |order| && forall i | 0 <= i < |order| :: order[i] in sm
  {
    seq(|progress|, j requires 0 <= j < |progress| => Extracted(sm, order, world, progress, j))
  }

  ghost predicate NotGiven<K, V>(gifts: seq<map<K, V>>, from: int, k: K) {
    forall i | 0 <= from <= i < |gifts| :: k !in gifts[i]
  }

  /** Each key has the value given last, or else the one it started with. */
  ghost predicate LastGiven<K(!new), V>(init: map<K, V>, gifts: seq<map<K, V>>, vars: map<K, V>) {
    && (forall k | NotGiven(gifts, 0, k) :: (k in vars <==> k in init) && (k in vars ==> vars[k] == init[k]))
    && (forall k, j | 0 <= j < |gifts| && k in gifts[j] && NotGiven(gifts, j + 1, k) ::
          k in vars && vars[k] == gifts[j][k])
  }

  lemma NotGivenMore<K, V>(gifts: seq<map<K, V>>, more: map<K, V>, from: int, k: K)
    requires 0 <= from <= |gifts|
    ensures NotGiven(gifts + [more], from, k) <==> NotGiven(gifts, from, k) && k !in more
  {
    var all := gifts + [more];
    assert all[|gifts|] == more;
    assert forall i | 0 <= i < |gifts| :: all[i] == gifts[i];
  }

  lemma GiveMore<K(!new), V>(init: map<K, V>, gifts: seq<map<K, V>>, vars: map<K, V>, more: map<K, V>)
    requires LastGiven(init, gifts, vars)
    ensures LastGiven(init, gifts + [more], vars + more)
  {
    var all, vars' := gifts + [more], vars + more;
    forall k | NotGiven(all, 0, k) ensures (k in vars' <==> k in init) && (k in vars' ==> vars'[k] == init[k]) {
      NotGivenMore(gifts, more, 0, k);
    }
    forall k, j | 0 <= j < |all| && k in all[j] && NotGiven(all, j + 1, k)
      ensures k in vars' && vars'[k] == all[j][k]
    {
      if j < |gifts| {
        NotGivenMore(gifts, more, j + 1, k);
      }
    }
  }

  lemma NextVariables(step: StepDef, k: nat, world: World, vars: map<string, string>, skipped: bool)
    requires skipped <==> Skips(vars, step.condition)
    ensures VariablesAfter(step, k, world, vars)
         == vars + if step.stepType == Llm && !skipped && world.llm(k).Success?
                   then world.extract(step.id, world.llm(k).value) else map[]
  {
  }

  lemma SkippedIff(step: StepDef, k: nat, world: World, context: string, trace: StepTrace, result: StepResult)
    requires StepOutcome(step, k, world, context, trace, result)
    ensures result.skipped <==> Skips(trace.vars, step.condition)
  {
  }

  ghost predicate SkipsRecorded(sm: map<string, StepDef>, order: seq<string>, world: World,
                                init: map<string, string>, progress: seq<StepResult>)
    requires |progress| <= |order| && forall i | 0 <= i < |order| :: order[i] in sm
  {
    forall m: nat | m < |progress| ::
      progress[m].skipped <==> Skips(VarsBefore(sm, order, world, init, m), sm[order[m]].condition)
  }

  lemma SkipsAreRecorded(steps: seq<StepDef>, order: seq<string>, world: World, init: map<string, string>,
                         results: Results, vars: map<string, string>, progress: seq<StepResult>, trace: seq<StepTrace>)
    requires RunSoFar(steps, order, world, init, results, vars, progress, trace)
    ensures SkipsRecorded(StepMap(steps), order, world, init, progress)
  {
    var sm := StepMap(steps);
    forall m: nat | m < |progress|
      ensures progress[m].skipped <==> Skips(VarsBefore(sm, order, world, init, m), sm[order[m]].condition)
    {
      SkippedIff(sm[order[m]], m, world, ContextFor(steps, order, results, order[m]), trace[m], progress[m]);
    }
  }

  /** `vars[n]` is what the first `n` gifts make of the start. */
  ghost predicate Chained<K, V>(init: map<K, V>, gifts: seq<map<K, V>>, vars: seq<map<K, V>>) {
    |vars| == |gifts| + 1 && vars[0] == init && forall m | 0 <= m < |gifts| :: vars[m + 1] == vars[m] + gifts[m]
  }

  lemma {:induction false} ChainedAreLastGiven<K(!new), V>(init: map<K, V>, gifts: seq<map<K, V>>,
                                                           vars: seq<map<K, V>>, n: nat)
    requires Chained(init, gifts, vars) && n <= |gifts|
    ensures LastGiven(init, gifts[..n], vars[n])
  {
    if n > 0 {
      ChainedAreLastGiven(init, gifts, vars, n - 1);
      assert gifts[..n] == gifts[..n - 1] + [gifts[n - 1]];
      GiveMore(init, gifts[..n - 1], vars[n - 1], gifts[n - 1]);
    }
  }

  lemma OneMoreExtract(sm: map<string, StepDef>, order: seq<string>, world: World, init: map<string, string>,
                       progress: seq<StepResult>, m: nat)
    requires |progress| <= |order| && forall i | 0 <= i < |order| :: order[i] in sm && sm[order[i]].id == order[i]
    requires m < |progress|
    requires progress[m].skipped <==> Skips(VarsBefore(sm, order, world, init, m), sm[order[m]].condition)
    ensures VarsBefore(sm, order, world, init, m + 1)
         == VarsBefore(sm, order, world, init, m) + Extracted(sm, order, world, progress, m)
  {
    NextVariables(sm[order[m]], m, world, VarsBefore(sm, order, world, init, m), progress[m].skipped);
  }

  /** The variables before each step, and at the end. */
  ghost function AllVars(sm: map<string, StepDef>, order: seq<string>, world: World, init: map<string, string>, n: nat)
    : seq<map<string, string>>
    requires n <= |order| && forall i | 0 <= i < |order| :: order[i] in sm
  {
    seq(n + 1, m requires 0 <= m < n + 1 => VarsBefore(sm, order, world, init, m))
  }

  lemma AllVarsAreChained(sm: map<string, StepDef>, order: seq<string>, world: World, init: map<string, string>,
                          progress: seq<StepResult>)
    requires |progress| <= |order| && forall i | 0 <= i < |order| :: order[i] in sm && sm[order[i]].id == order[i]
    requires SkipsRecorded(sm, order, world, init, progress)
    ensures Chained(init, Extracts(sm, order, world, progress), AllVars(sm, order, world, init, |progress|))
  {
    forall m: nat | m < |progress|
      ensures VarsBefore(sm, order, world, init, m + 1)
           == VarsBefore(sm, order, world, init, m) + Extracted(sm, order, world, progress, m)
    {
      OneMoreExtract(sm, order, world, init, progress, m);
    }
  }

  /** A run starts each step from the values extracted last before it, or else from those of the start. */
  ghost predicate CarriesVariables(sm: map<string, StepDef>, order: seq<string>, world: World,
                                   init: map<string, string>, vars: map<string, string>, progress: seq<StepResult>,
                                   trace: seq<StepTrace>)
    requires |progress| == |trace| <= |order| && forall i | 0 <= i < |order| :: order[i] in sm
  {
    var gifts := Extracts(sm, order, world, progress);
    LastGiven(init, gifts, vars) && forall n: nat | n < |trace| :: LastGiven(init, gifts[..n], trace[n].vars)
  }

  lemma HandedOnAreCarried(sm: map<string, StepDef>, order: seq<string>, world: World, init: map<string, string>,
                           vars: map<string, string>, progress: seq<StepResult>, trace: seq<StepTrace>)
    requires forall i | 0 <= i < |order| :: order[i] in sm && sm[order[i]].id == order[i]
    requires |progress| == |trace| <= |order| && SkipsRecorded(sm, order, world, init, progress)
    requires VariablesHandedOn(sm, order, world, init, vars, trace)
    ensures CarriesVariables(sm, order, world, init, vars, progress, trace)
  {
    var gifts, all := Extracts(sm, order, world, progress), AllVars(sm, order, world, init, |progress|);
    AllVarsAreChained(sm, order, world, init, progress);
    forall n: nat | n <= |trace| ensures LastGiven(init, gifts[..n], all[n]) {
      ChainedAreLastGiven(init, gifts, all, n);
    }
    assert gifts[..|trace|] == gifts;
  }

  lemma RunCarriesVariables(steps: seq<StepDef>, order: seq<string>, world: World, init: map<string, string>,
                            results: Results, vars: map<string, string>, progress: seq<StepResult>,
                            trace: seq<StepTrace>)
    requires RunSoFar(steps, order, world, init, results, vars, progress, trace)
    ensures CarriesVariables(StepMap(steps), order, world, init, vars, progress, trace)
  {
    SkipsAreRecorded(steps, order, world, init, results, vars, progress, trace);
    HandedOnAreCarried(StepMap(steps), order, world, init, vars, progress, trace);
  }

  method RunNext(steps: seq<StepDef>, order: seq<string>, world: World, ghost init: map<string, string>,
                 results0: Results, vars0: map<string, string>, progress0: seq<StepResult>, trace0: seq<StepTrace>)
    returns (results: Results, vars: map<string, string>, progress: seq<StepResult>, trace: seq<StepTrace>)
    requires IsTopologicalOrder(steps, order) && |trace0| < |order|
    requires RunSoFar(steps, order, world, init, results0, vars0, progress0, trace0)
    ensures RunSoFar(steps, order, world, init, results, vars, progress, trace) && |trace| == |trace0| + 1
  {
    var k := |trace0|;
    var result, t, newVars := ExecStep(StepMap(steps)[order[k]], k, steps, order, results0, vars0, world);
    ExtendRun(steps, order, world, init, results0, vars0, progress0, trace0, result, t, newVars);
    return results0[order[k] := result], newVars, progress0 + [result], trace0 + [t];
  }

  method RunAll(steps: seq<StepDef>, order: seq<string>, world: World, init: map<string, string>)
    returns (results: Results, vars: map<string, string>, progress: seq<StepResult>, trace: seq<StepTrace>)
    requires IsTopologicalOrder(steps, order)
    ensures |trace| == |order| && RunSoFar(steps, order, world, init, results, vars, progress, trace)
  {
    results, vars, progress, trace := map[], init, [], [];
    NothingRun(steps, order, world, init);
    for k := 0 to |order|
      invariant |trace| == k && RunSoFar(steps, order, world, init, results, vars, progress, trace)
    {
      results, vars, progress, trace := RunNext(steps, order, world, init, results, vars, progress, trace);
    }
  }

  lemma NothingRun(steps: seq<StepDef>, order: seq<string>, world: World, init: map<string, string>)
    requires IsTopologicalOrder(steps, order)
    ensures RunSoFar(steps, order, world, init, map[], init, [], [])
  {
    forall j | 0 <= j < |order| ensures order[j] in StepMap(steps) {
      assert order[j] in Elements(order);
    }
  }

  lemma FullRunHasAll(steps: seq<StepDef>, order: seq<string>, results: Results, progress: seq<StepResult>)
    requires IsTopologicalOrder(steps, order) && |progress| == |order| && ResultsRecorded(order, results, progress)
    ensures results.Keys == StepIds(steps)
  {
    assert order[..|order|] == order;
  }

  /**
   * Runs every step of a valid graph once, in a topological order, reporting progress after each.
   * Every prompt was built from the ancestors' final results: at its turn a step finds all of
   * them recorded, and no result is ever replaced.
   */
  method Execute(graph: GraphDef, workDir: string, inputs: Option<map<string, string>>, world: World)
    returns (r: Result<Results, GraphError>, order: seq<string>, progress: seq<StepResult>,
             trace: seq<StepTrace>, vars: map<string, string>)
    requires UniqueIds(graph.steps)
    ensures r.Success? <==> DependenciesExist(graph.steps) && Acyclic(StepMap(graph.steps))
    ensures r.Failure? ==> trace == [] && progress == []
    ensures r.Success? ==>
              && IsTopologicalOrder(graph.steps, order)
              && |trace| == |order| && r.value.Keys == StepIds(graph.steps)
              && RunSoFar(graph.steps, order, world, InitialVariables(graph, workDir, inputs), r.value, vars,
                          progress, trace)
    ensures Seeded(graph, workDir, inputs, InitialVariables(graph, workDir, inputs))
    ensures r.Success? && order != [] ==> Seeded(graph, workDir, inputs, trace[0].vars)
    ensures r.Success? ==>
              CarriesVariables(StepMap(graph.steps), order, world, InitialVariables(graph, workDir, inputs), vars,
                               progress, trace)
  {
    InitialAreSeeded(graph, workDir, inputs);
    ghost var init := InitialVariables(graph, workDir, inputs);
    progress, trace, order := [], [], [];
    vars := InitialVariables(graph, workDir, inputs);
    var sorted := Sort(graph.steps);
    if sorted.Failure? {
      return Failure(sorted.error), order, progress, trace, vars;
    }
    order := sorted.value;
    var results;
    results, vars, progress, trace := RunAll(graph.steps, order, world, vars);
    FullRunHasAll(graph.steps, order, results, progress);
    RunCarriesVariables(graph.steps, order, world, init, results, vars, progress, trace);
    r := Success(results);
  }

  /** When a step has its turn, each of its ancestors has run: it stands earlier and has its final result. */
  lemma AncestorsHaveRun(steps: seq<StepDef>, order: seq<string>, world: World, init: map<string, string>,
                         results: Results, vars: map<string, string>, progress: seq<StepResult>,
                         trace: seq<StepTrace>, k: nat, a: string)
    requires IsTopologicalOrder(steps, order) && k <= |trace| && k < |order|
    requires RunSoFar(steps, order, world, init, results, vars, progress, trace)
    requires Reaches(StepMap(steps), order[k], a)
    ensures a in results && exists j :: 0 <= j < k && order[j] == a && results[a] == progress[j]
  {
    AncestorsStandBefore(StepMap(steps), order, k, a);
    var j :| 0 <= j < k && order[j] == a;
    assert order[j] in results;
  }
}
