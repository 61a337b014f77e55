/** The context handed to an LLM step, `ExecContext::llm_context`. */
module LlmContext {
  import opened Wrappers
  import opened Text
  import opened SkillGraph
  import opened Ancestors

  datatype ToolResult = ToolResult(
    tool: string, args: string, stdout: string, stderr: string, exitCode: int, skipped: bool)

  datatype StepResult = StepResult(
    id: string,
    stepType: StepType,
    skipped: bool,
    toolResults: seq<ToolResult>,
    llmOutput: Option<string>)

  type Results = map<string, StepResult>

  /** One part of the context: the digest that stands for everything before it, or a step in full. */
  datatype Part = Summary(id: string, output: string) | Full(id: string, result: StepResult)

  // ----- Which steps the context shows

  /** An LLM step that ran: it has digested what was shown to it. */
  predicate IsDigest(results: Results, id: string) {
    id in results && results[id].stepType == Llm && !results[id].skipped
  }

  /** The last step of `order` among `ancestors` that is a digest. */
  function LastDigest(order: seq<string>, ancestors: set<string>, results: Results): (r: Option<string>)
    ensures r.Some? ==> r.value in order && r.value in ancestors && IsDigest(results, r.value)
  {
    if order == [] then None
    else
      var last := order[|order| - 1];
      if last in ancestors && IsDigest(results, last) then Some(last)
      else LastDigest(order[..|order| - 1], ancestors, results)
  }

  /** The part of `order` after the first occurrence of `x`; nothing if `x` does not occur. */
  function AfterFirst(order: seq<string>, x: string): seq<string> {
    if order == [] then []
    else
      var init := order[..|order| - 1];
      if x in init then AfterFirst(init, x) + [order[|order| - 1]] else []
  }

  function Filter(order: seq<string>, keep: set<string>): seq<string> {
    if order == [] then []
    else
      var last := order[|order| - 1];
      Filter(order[..|order| - 1], keep) + if last in keep then [last] else []
  }

  /** The steps shown in full, in execution order. */
  function ShownSteps(order: seq<string>, ancestors: set<string>, boundary: Option<string>): seq<string> {
    match boundary
    case None => Filter(order, ancestors)
    case Some(b) => Filter(AfterFirst(order, b), ancestors - {b})
  }

  /** The recorded results of `ids`; an id without a result is passed over. */
  function ResultsOf(results: Results, ids: seq<string>): seq<Part> {
    if ids == [] then []
    else
      var last := ids[|ids| - 1];
      ResultsOf(results, ids[..|ids| - 1]) + if last in results then [Full(last, results[last])] else []
  }

  function Digest(results: Results, boundary: Option<string>): seq<Part> {
    if boundary.Some? && boundary.value in results && results[boundary.value].llmOutput.Some?
    then [Summary(boundary.value, results[boundary.value].llmOutput.value)]
    else []
  }

  function ContextParts(results: Results, ancestors: set<string>, order: seq<string>): seq<Part> {
    var boundary := LastDigest(order, ancestors, results);
    Digest(results, boundary) + ResultsOf(results, ShownSteps(order, ancestors, boundary))
  }

  lemma ShownStepsSnoc(order: seq<string>, i: nat, ancestors: set<string>, b: Option<string>)
    requires i < |order|
    ensures var id := order[i];
            ShownSteps(order[..i + 1], ancestors, b)
            == ShownSteps(order[..i], ancestors, b)
               + if id in ancestors && (b.None? || (id != b.value && b.value in order[..i])) then [id] else []
  {
    var s, t := order[..i], order[..i + 1];
    assert t[..|t| - 1] == s && t[|t| - 1] == order[i];
    if b.Some? && b.value in s {
      var u := AfterFirst(s, b.value) + [order[i]];
      assert u[..|u| - 1] == AfterFirst(s, b.value);
    } else if b.Some? {
      AfterMissing(s, b.value);
    }
  }

  lemma {:induction false} AfterMissing(order: seq<string>, x: string)
    requires x !in order
    ensures AfterFirst(order, x) == []
  {
  }

  lemma ShownPartsSnoc(results: Results, order: seq<string>, i: nat, ancestors: set<string>, b: Option<string>)
    requires i < |order|
    ensures var id := order[i];
            ResultsOf(results, ShownSteps(order[..i + 1], ancestors, b))
            == ResultsOf(results, ShownSteps(order[..i], ancestors, b))
               + if id in ancestors && (b.None? || (id != b.value && b.value in order[..i])) && id in results
                 then [Full(id, results[id])] else []
  {
    ShownStepsSnoc(order, i, ancestors, b);
    var shown := ShownSteps(order[..i], ancestors, b);
    assert (shown + [order[i]])[..|shown|] == shown;
    assert shown + [] == shown;
  }

  method FindBoundary(results: Results, ancestors: set<string>, order: seq<string>) returns (boundary: Option<string>)
    ensures boundary == LastDigest(order, ancestors, results)
  {
    boundary := None;
    for i := 0 to |order|
      invariant boundary == LastDigest(order[..i], ancestors, results)
    {
      assert order[..i + 1][..i] == order[..i];
      if order[i] in ancestors {
        if IsDigest(results, order[i]) {
          boundary := Some(order[i]);
        }
      }
    }
    assert order[..|order|] == order;
  }

  /** Pushes the parts for the steps after the boundary, walking the execution order once. */
  method PushShown(results: Results, ancestors: set<string>, order: seq<string>, boundary: Option<string>,
                   digest: seq<Part>) returns (parts: seq<Part>)
    requires boundary.Some? ==> boundary.value in ancestors
    ensures parts == digest + ResultsOf(results, ShownSteps(order, ancestors, boundary))
  {
    parts := digest;
    var pastBoundary := boundary.None?;
    ghost var shown: seq<Part> := [];
    for i := 0 to |order|
      invariant pastBoundary <==> boundary.None? || boundary.value in order[..i]
      invariant parts == digest + shown && shown == ResultsOf(results, ShownSteps(order[..i], ancestors, boundary))
    {
      var id := order[i];
      ShownPartsSnoc(results, order, i, ancestors, boundary);
      assert forall x :: x in order[..i + 1] <==> x in order[..i] || x == id;
      if id !in ancestors {
        continue;
      }
      if boundary == Some(id) {
        pastBoundary := true;
        continue;
      }
      if !pastBoundary {
        continue;
      }
      if id in results {
        parts := parts + [Full(id, results[id])];
        shown := shown + [Full(id, results[id])];
      }
    }
    assert order[..|order|] == order;
  }

  method CollectParts(results: Results, ancestors: set<string>, order: seq<string>) returns (parts: seq<Part>)
    ensures parts == ContextParts(results, ancestors, order)
  {
    var boundary := FindBoundary(results, ancestors, order);
    parts := [];
    if boundary.Some? && boundary.value in results && results[boundary.value].llmOutput.Some? {
      parts := parts + [Summary(boundary.value, results[boundary.value].llmOutput.value)];
    }
    parts := PushShown(results, ancestors, order, boundary, parts);
  }

  // ----- Rendering

  function FormatTool(tr: ToolResult): string {
    "### `" + tr.tool + " " + tr.args + "`\nExit code: " + Decimal(tr.exitCode)
    + "\nStdout:\n```\n" + Trim(tr.stdout) + "\n```"
    + if Trim(tr.stderr) == "" then "" else "\nStderr:\n```\n" + Trim(tr.stderr) + "\n```"
  }

  function Unskipped(trs: seq<ToolResult>): seq<ToolResult> {
    if trs == [] then [] else (if trs[0].skipped then [] else [trs[0]]) + Unskipped(trs[1..])
  }

  function FormatTools(trs: seq<ToolResult>): seq<string> {
    var shown := Unskipped(trs);
    seq(|shown|, i requires 0 <= i < |shown| => FormatTool(shown[i]))
  }

  /** `format_step_result`. */
  function FormatStepResult(id: string, result: StepResult): string {
    if result.skipped then "## Step `" + id + "` \U{2014} SKIPPED\n"
    else match result.stepType
      case Llm => (match result.llmOutput
                   case Some(output) => "## Step `" + id + "`\n" + output + "\n"
                   case None => "")
      case Tool => "## Step `" + id + "`\n" + Join(FormatTools(result.toolResults), "\n") + "\n"
  }

  function FormatPart(part: Part): string {
    match part
    case Summary(id, output) => FormatSummary(id, output)
    case Full(id, result) => FormatStepResult(id, result)
  }

  function Render(parts: seq<Part>): string {
    Join(seq(|parts|, i requires 0 <= i < |parts| => FormatPart(parts[i])), "\n")
  }

  function FormatSummary(id: string, output: string): string {
    "## Summary from step `" + id + "` (compressed)\n" + output + "\n"
  }

  /** First the last digest among the ancestors, then in full the ancestors that come after it. */
  method Build(results: Results, current: string, steps: seq<StepDef>, order: seq<string>)
    returns (context: string)
    ensures context == Render(ContextParts(results, AncestorsOf(StepMap(steps), current), order))
  {
    var ancestors := TransitiveDeps(current, StepMap(steps));
    var parts := CollectParts(results, ancestors, order);
    context := Render(parts);
  }
}
