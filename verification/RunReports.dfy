/** What a run asks of the world and reports, in plain terms. */
module RunReports {
  import opened Sequences
  import opened Wrappers
  import opened Text
  import opened SkillGraph
  import opened Conditions
  import opened Templates
  import opened LlmContext
  import opened ContextCoverage
  import opened ContextText
  import opened GraphExecutor

  // ----- Tool calls

  /** A tool call that ran reports what came back: output, errors and exit code of the reply. */
  lemma ToolReports(vars: map<string, string>, tool: ToolCall, io: ToolIo, tr: ToolResult, request: Option<Request>)
    requires ToolOutcome(vars, tool, io, tr, request)
    ensures tr.skipped <==> tool.condition.Some? && !EvalCondition(vars, tool.condition.value)
    ensures tr.tool == tool.tool
    ensures tr.skipped ==> request.None? && tr.stdout == tr.stderr == "" && tr.exitCode == 0
    ensures request.Some? && io.reply.Done? ==>
              tr.stdout == io.reply.stdout && tr.stderr == io.reply.stderr && tr.exitCode == io.reply.exitCode
    ensures request.Some? && io.reply.Error? ==>
              tr.stdout == "" && tr.stderr == "execution error: " + io.reply.message && tr.exitCode == -1
    ensures !tr.skipped && tool.tool !in {"bash", "write_file", "read_file"} ==>
              request.None? && tr.exitCode == 127 && tr.stderr == "unknown tool: " + tool.tool
    ensures !tr.skipped && tool.tool in {"bash", "read_file"} ==> request.Some?
    ensures !tr.skipped && tool.tool == "write_file" ==>
              (request.None? <==> tool.template.Some? && io.template.Failure?)
              && (request.None? ==>
                    && tr.exitCode == 1 && tr.stdout == "" && tr.args == "template: " + tool.template.value
                    && tr.stderr == "failed to read template " + tool.template.value + ": " + io.template.error)
  {
  }

  /** The command of a shell call is its argument text with the variables put in. */
  lemma CommandIsSubstitution(vars: map<string, string>, tool: ToolCall, io: ToolIo, tr: ToolResult,
                              request: Option<Request>)
    requires ToolOutcome(vars, tool, io, tr, request) && !tr.skipped && tool.tool == "bash"
    requires SafeVariables(vars) && !Nested(tool.args)
    ensures request == Some(RunBash(Substitute(vars, tool.args))) && tr.args == Substitute(vars, tool.args)
  {
    ExpandsToSubstitution(vars, tool.args, tr.args);
  }

  /** The path of a file call is its own text, or else its argument text, with the variables put in. */
  lemma PathIsSubstitution(vars: map<string, string>, tool: ToolCall, io: ToolIo, tr: ToolResult,
                           request: Option<Request>)
    requires ToolOutcome(vars, tool, io, tr, request) && request.Some? && tool.tool in {"write_file", "read_file"}
    requires SafeVariables(vars) && !Nested(tool.args) && (tool.path.Some? ==> !Nested(tool.path.value))
    ensures var path := if tool.path.Some? then Substitute(vars, tool.path.value) else Substitute(vars, tool.args);
            && (tool.tool == "read_file" ==> request.value == ReadFile(path))
            && (tool.tool == "write_file" ==> request.value.WriteFile? && request.value.path == path)
  {
    var path := request.value.path;
    match tool.path
    case Some(text) =>
      ExpandsToSubstitution(vars, text, path);
    case None =>
      ExpandTwiceIsOnce(vars, tool.args, tr.args, path);
  }

  /** The content of a file written from a template is the template with the variables put in. */
  lemma TemplateIsSubstitution(vars: map<string, string>, tool: ToolCall, io: ToolIo, tr: ToolResult,
                               request: Option<Request>)
    requires ToolOutcome(vars, tool, io, tr, request) && !tr.skipped && tool.tool == "write_file"
    requires tool.template.Some? && io.template.Success? && SafeVariables(vars) && !Nested(io.template.value)
    ensures request.Some? && request.value.WriteFile?
    ensures request.value.content == Substitute(vars, io.template.value)
  {
    ExpandsToSubstitution(vars, io.template.value, request.value.content);
  }

  // ----- Steps

  /**
   * Of each step that had its turn: it was skipped exactly when its condition did not hold; a tool step has
   * one result for each of its calls; an LLM step has the answer, or the message of the failure.
   */
  lemma StepReports(steps: seq<StepDef>, order: seq<string>, world: World, init: map<string, string>, results: Results,
                    vars: map<string, string>, progress: seq<StepResult>, trace: seq<StepTrace>, k: nat)
    requires RunSoFar(steps, order, world, init, results, vars, progress, trace) && k < |trace|
    ensures order[k] in StepMap(steps) && order[k] in results && results[order[k]] == progress[k]
    ensures var step, result := StepMap(steps)[order[k]], progress[k];
            && result.id == order[k] && result.stepType == step.stepType
            && (result.skipped <==> step.condition.Some? && !EvalCondition(trace[k].vars, step.condition.value))
            && (result.skipped || step.stepType == Tool ==> result.llmOutput.None? && trace[k].prompt.None?)
            && (step.stepType == Tool && !result.skipped ==> |result.toolResults| == |step.tools|)
            && (step.stepType == Llm && !result.skipped ==>
                  && trace[k].prompt.Some?
                  && (world.llm(k).Success? ==> result.llmOutput == Some(world.llm(k).value))
                  && (world.llm(k).Failure? ==> result.llmOutput == Some("ERROR: " + world.llm(k).error)))
  {
    var sm := StepMap(steps);
    assert sm[order[k]].id == order[k];
    assert StepOutcome(sm[order[k]], k, world, ContextFor(steps, order, results, order[k]), trace[k], progress[k]);
  }

  lemma PromptShowsContext(context: string, task: string)
    ensures Contains(FullPrompt(context, task), context) && Contains(FullPrompt(context, task), task)
  {
    var a, b := "# Context from previous steps\n\n", "\n\n# Your task\n\n";
    assert FullPrompt(context, task) == a + context + (b + task);
    ContainsIn(a, context, b + task);
    assert FullPrompt(context, task) == (a + context + b) + task + "";
    ContainsIn(a + context + b, task, "");
  }

  lemma PromptOfStep(steps: seq<StepDef>, order: seq<string>, world: World, init: map<string, string>, results: Results,
                     vars: map<string, string>, progress: seq<StepResult>, trace: seq<StepTrace>, k: nat)
    requires RunSoFar(steps, order, world, init, results, vars, progress, trace) && k < |trace|
    requires trace[k].prompt.Some?
    ensures Contains(trace[k].prompt.value, Render(PartsFor(steps, order, results, order[k])))
  {
    var sm := StepMap(steps);
    var context := ContextFor(steps, order, results, order[k]);
    assert StepOutcome(sm[order[k]], k, world, context, trace[k], progress[k]);
    var task :| Expands(trace[k].vars, PromptTemplate(sm[order[k]]), task)
                && trace[k].prompt.value == FullPrompt(context, task);
    PromptShowsContext(context, task);
  }

  /** The task of the prompt is the step's own, or the default, with the variables put in. */
  lemma PromptShowsTask(steps: seq<StepDef>, order: seq<string>, world: World, init: map<string, string>,
                        results: Results, vars: map<string, string>, progress: seq<StepResult>,
                        trace: seq<StepTrace>, k: nat)
    requires RunSoFar(steps, order, world, init, results, vars, progress, trace) && k < |trace|
    requires trace[k].prompt.Some? && order[k] in StepMap(steps) && SafeVariables(trace[k].vars)
    ensures var step := StepMap(steps)[order[k]];
            var task := if step.prompt.Some? then step.prompt.value else "Analyze the results from previous steps.";
            !Nested(task) ==> Contains(trace[k].prompt.value, Substitute(trace[k].vars, task))
  {
    var step := StepMap(steps)[order[k]];
    var context := ContextFor(steps, order, results, order[k]);
    assert StepOutcome(step, k, world, context, trace[k], progress[k]);
    var task :|
      Expands(trace[k].vars, PromptTemplate(step), task) && trace[k].prompt.value == FullPrompt(context, task);
    PromptShowsContext(context, task);
    if !Nested(PromptTemplate(step)) {
      ExpandsToSubstitution(trace[k].vars, PromptTemplate(step), task);
    }
  }

  /** In a run the prompt of an LLM step shows the output of the last LLM ancestor that ran. */
  lemma PromptShowsOutput(steps: seq<StepDef>, order: seq<string>, world: World, init: map<string, string>,
                          results: Results, vars: map<string, string>, progress: seq<StepResult>,
                          trace: seq<StepTrace>, k: nat, b: string)
    requires IsTopologicalOrder(steps, order)
    requires RunSoFar(steps, order, world, init, results, vars, progress, trace) && k < |trace|
    requires trace[k].prompt.Some? && LastLlm(StepMap(steps), order, results, order[k], b)
    requires results[b].llmOutput.Some?
    ensures Contains(trace[k].prompt.value, results[b].llmOutput.value)
  {
    PromptOfStep(steps, order, world, init, results, vars, progress, trace, k);
    ContextShowsOutput(steps, order, results, order[k], b);
    ContainsTrans(trace[k].prompt.value, Render(PartsFor(steps, order, results, order[k])), results[b].llmOutput.value);
  }

  /** And the output of every tool call of the ancestors after it. */
  lemma PromptShowsTools(steps: seq<StepDef>, order: seq<string>, world: World, init: map<string, string>,
                         results: Results, vars: map<string, string>, progress: seq<StepResult>,
                         trace: seq<StepTrace>, k: nat, a: string, tr: ToolResult)
    requires IsTopologicalOrder(steps, order)
    requires RunSoFar(steps, order, world, init, results, vars, progress, trace) && k < |trace|
    requires trace[k].prompt.Some? && Uncovered(StepMap(steps), order, results, order[k], a)
    requires results[a].stepType == Tool && !results[a].skipped && tr in results[a].toolResults && !tr.skipped
    ensures Contains(trace[k].prompt.value, Trim(tr.stdout)) && Contains(trace[k].prompt.value, tr.args)
  {
    var context := Render(PartsFor(steps, order, results, order[k]));
    PromptOfStep(steps, order, world, init, results, vars, progress, trace, k);
    ContextShowsTools(steps, order, results, order[k], a, tr);
    ContainsTrans(trace[k].prompt.value, context, Trim(tr.stdout));
    ContainsTrans(trace[k].prompt.value, context, tr.args);
  }
}
