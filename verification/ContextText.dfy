/** What the context of an LLM step holds, part by part and as text. */
module ContextText {
  import opened Sequences
  import opened Wrappers
  import opened Text
  import opened SkillGraph
  import opened Ancestors
  import opened LlmContext
  import opened ContextCoverage

  // ----- The parts

  /** An ancestor that is an LLM step and ran. */
  ghost predicate RanLlm(sm: map<string, StepDef>, results: Results, current: string, a: string) {
    Reaches(sm, current, a) && a in results && results[a].stepType == Llm && !results[a].skipped
  }

  /** The last LLM ancestor in the order that ran. */
  ghost predicate LastLlm(sm: map<string, StepDef>, order: seq<string>, results: Results, current: string, b: string) {
    && b in order && RanLlm(sm, results, current, b)
    && forall a | a in order && RanLlm(sm, results, current, a) :: a == b || Before(order, a, b)
  }

  /** The parts are the full results of exactly the ids that `wanted` holds of, in the order. */
  ghost predicate FullResults(parts: seq<Part>, order: seq<string>, results: Results, wanted: iset<string>) {
    && (forall i | 0 <= i < |parts| ::
          parts[i].Full? && parts[i].id in wanted && parts[i].id in results && parts[i].result == results[parts[i].id])
    && (forall id | id in wanted && id in results :: HasPart(parts, id))
    && (forall i, j | 0 <= i < j < |parts| :: Before(order, parts[i].id, parts[j].id))
  }

  ghost function AncestorsAfter(sm: map<string, StepDef>, order: seq<string>, current: string, b: string)
    : iset<string>
  {
    iset a | a in order && Reaches(sm, current, a) && Before(order, b, a)
  }

  ghost function AllAncestors(sm: map<string, StepDef>, order: seq<string>, current: string): iset<string> {
    iset a | a in order && Reaches(sm, current, a)
  }

  /** Only recorded results of these ids, and all of them. */
  ghost predicate Shows(parts: seq<Part>, results: Results, ids: seq<string>) {
    && (forall i | 0 <= i < |parts| ::
          parts[i].Full? && parts[i].id in ids && parts[i].id in results && parts[i].result == results[parts[i].id])
    && (forall id | id in ids && id in results :: HasPart(parts, id))
  }

  ghost predicate HasPart(parts: seq<Part>, id: string) {
    exists i :: 0 <= i < |parts| && parts[i].id == id
  }

  lemma HasPartMore(parts: seq<Part>, more: Part)
    ensures forall id | HasPart(parts, id) :: HasPart(parts + [more], id)
    ensures HasPart(parts + [more], more.id)
  {
    assert (parts + [more])[|parts|] == more;
    forall id | HasPart(parts, id) ensures HasPart(parts + [more], id) {
      var i :| 0 <= i < |parts| && parts[i].id == id;
      assert (parts + [more])[i].id == id;
    }
  }

  lemma {:induction false} ResultsShown(results: Results, ids: seq<string>)
    ensures Shows(ResultsOf(results, ids), results, ids)
    decreases |ids|
  {
    if ids != [] {
      var before, last := ids[..|ids| - 1], ids[|ids| - 1];
      ResultsShown(results, before);
      assert forall id :: id in ids <==> id in before || id == last;
      var init := ResultsOf(results, before);
      if last in results {
        HasPartMore(init, Full(last, results[last]));
        assert ResultsOf(results, ids) == init + [Full(last, results[last])];
      } else {
        assert ResultsOf(results, ids) == init;
      }
    }
  }

  lemma {:induction false} ResultsInOrder(results: Results, ids: seq<string>, order: seq<string>)
    requires forall i, j | 0 <= i < j < |ids| :: Before(order, ids[i], ids[j])
    ensures forall i, j | 0 <= i < j < |ResultsOf(results, ids)| ::
              Before(order, ResultsOf(results, ids)[i].id, ResultsOf(results, ids)[j].id)
    decreases |ids|
  {
    if ids != [] {
      var n := |ids| - 1;
      var init := ResultsOf(results, ids[..n]);
      ResultsInOrder(results, ids[..n], order);
      ResultsShown(results, ids[..n]);
      forall i | 0 <= i < |init| ensures Before(order, init[i].id, ids[n]) {
        var k :| 0 <= k < n && ids[..n][k] == init[i].id;
        assert ids[k] == init[i].id;
      }
    }
  }

  lemma ResultsOfAre(results: Results, ids: seq<string>, order: seq<string>, wanted: iset<string>)
    requires forall id :: id in ids <==> id in wanted
    requires forall i, j | 0 <= i < j < |ids| :: Before(order, ids[i], ids[j])
    ensures FullResults(ResultsOf(results, ids), order, results, wanted)
  {
    ResultsShown(results, ids);
    ResultsInOrder(results, ids, order);
  }

  lemma BoundaryIsLast(steps: seq<StepDef>, order: seq<string>, results: Results, current: string)
    requires NoDuplicates(order)
    ensures var sm, b := StepMap(steps), Boundary(steps, order, results, current);
            && (b.Some? ==> LastLlm(sm, order, results, current, b.value))
            && (b.None? ==> forall a | a in order :: !RanLlm(sm, results, current, a))
            && (forall a | LastLlm(sm, order, results, current, a) :: b == Some(a))
  {
    var sm, b := StepMap(steps), Boundary(steps, order, results, current);
    LastDigestIsLast(order, AncestorsOf(sm, current), results);
    forall a | LastLlm(sm, order, results, current, a) ensures b == Some(a) {
      if b.value != a {
        BeforeIsStrict(order, a, b.value);
      }
    }
  }

  ghost function PartsFor(steps: seq<StepDef>, order: seq<string>, results: Results, current: string): seq<Part> {
    ContextParts(results, AncestorsOf(StepMap(steps), current), order)
  }

  lemma ShownAre(steps: seq<StepDef>, order: seq<string>, results: Results, current: string)
    requires NoDuplicates(order)
    ensures var sm, b := StepMap(steps), Boundary(steps, order, results, current);
            FullResults(ResultsOf(results, Shown(steps, order, results, current)), order, results,
                        if b.Some? then AncestorsAfter(sm, order, current, b.value)
                        else AllAncestors(sm, order, current))
  {
    var sm, b := StepMap(steps), Boundary(steps, order, results, current);
    ShownExactly(steps, order, results, current);
    ResultsOfAre(results, Shown(steps, order, results, current), order,
                 if b.Some? then AncestorsAfter(sm, order, current, b.value) else AllAncestors(sm, order, current));
  }

  /**
   * The context starts with the output of the last LLM ancestor that ran, once, and goes on with the full
   * results of exactly the recorded ancestors after it, in order. When no LLM ancestor ran it is the full
   * results of all recorded ancestors.
   */
  lemma PartsAre(steps: seq<StepDef>, order: seq<string>, results: Results, current: string)
    requires NoDuplicates(order)
    ensures var sm, parts := StepMap(steps), PartsFor(steps, order, results, current);
            && (forall b | LastLlm(sm, order, results, current, b) && results[b].llmOutput.Some? ::
                  && parts != [] && parts[0] == Summary(b, results[b].llmOutput.value)
                  && FullResults(parts[1..], order, results, AncestorsAfter(sm, order, current, b)))
            && (forall b | LastLlm(sm, order, results, current, b) && results[b].llmOutput.None? ::
                  FullResults(parts, order, results, AncestorsAfter(sm, order, current, b)))
            && ((forall a | a in order :: !RanLlm(sm, results, current, a)) ==>
                  FullResults(parts, order, results, AllAncestors(sm, order, current)))
  {
    BoundaryIsLast(steps, order, results, current);
    ShownAre(steps, order, results, current);
    var parts, b := PartsFor(steps, order, results, current), Boundary(steps, order, results, current);
    var rest := ResultsOf(results, Shown(steps, order, results, current));
    if b.Some? && results[b.value].llmOutput.Some? {
      assert parts == [Summary(b.value, results[b.value].llmOutput.value)] + rest;
    } else {
      assert parts == rest;
    }
  }

  // ----- The text

  lemma {:induction false} ContainsIn(a: string, x: string, c: string)
    ensures Contains(a + x + c, x)
  {
    if a == "" {
      assert a + x + c == x + c;
    } else {
      assert (a + x + c)[1..] == a[1..] + x + c;
      ContainsIn(a[1..], x, c);
    }
  }

  lemma {:induction false} ContainsTrans(s: string, m: string, x: string)
    requires Contains(s, m) && Contains(m, x)
    ensures Contains(s, x)
  {
    if m <= s {
      assert s == "" + m + s[|m|..];
      ContainsLonger(m, s[|m|..], x);
      assert m + s[|m|..] == s;
    } else {
      ContainsTrans(s[1..], m, x);
    }
  }

  lemma {:induction false} ContainsLonger(m: string, c: string, x: string)
    requires Contains(m, x)
    ensures Contains(m + c, x)
  {
    if x <= m {
      assert x <= m + c;
    } else {
      assert (m + c)[1..] == m[1..] + c;
      ContainsLonger(m[1..], c, x);
    }
  }

  lemma {:induction false} JoinContains(parts: seq<string>, sep: string, i: nat)
    requires i < |parts|
    ensures Contains(Join(parts, sep), parts[i])
    decreases |parts|
  {
    if |parts| == 1 {
      assert parts[0] <= parts[0];
    } else if i == 0 {
      var rest := Join(parts[1..], sep);
      assert parts[0] + sep + rest == "" + parts[0] + (sep + rest);
      ContainsIn("", parts[0], sep + rest);
    } else {
      JoinContains(parts[1..], sep, i - 1);
      var rest := Join(parts[1..], sep);
      assert parts[0] + sep + rest == (parts[0] + sep) + rest + "";
      ContainsIn(parts[0] + sep, rest, "");
      ContainsTrans(Join(parts, sep), rest, parts[i]);
    }
  }

  lemma PartIsShown(parts: seq<Part>, i: nat)
    requires i < |parts|
    ensures Contains(Render(parts), FormatPart(parts[i]))
  {
    var texts := seq(|parts|, k requires 0 <= k < |parts| => FormatPart(parts[k]));
    JoinContains(texts, "\n", i);
  }

  lemma SummaryShows(b: string, output: string)
    ensures Contains(FormatSummary(b, output), output)
  {
    var head := "## Summary from step `" + b + "` (compressed)\n";
    assert FormatSummary(b, output) == head + output + "\n";
    ContainsIn(head, output, "\n");
  }

  /** The text of the context holds the output of the last LLM ancestor that ran. */
  lemma ContextShowsOutput(steps: seq<StepDef>, order: seq<string>, results: Results, current: string, b: string)
    requires NoDuplicates(order) && LastLlm(StepMap(steps), order, results, current, b)
    requires results[b].llmOutput.Some?
    ensures Contains(Render(PartsFor(steps, order, results, current)), results[b].llmOutput.value)
  {
    var parts, output := PartsFor(steps, order, results, current), results[b].llmOutput.value;
    PartsAre(steps, order, results, current);
    PartIsShown(parts, 0);
    SummaryShows(b, output);
    ContainsTrans(Render(parts), FormatSummary(b, output), output);
  }

  lemma PiecesShow(a: string, x: string, b: string, y: string, c: string, z: string, d: string)
    ensures var text := a + x + b + y + c + z + d;
            Contains(text, x) && Contains(text, y) && Contains(text, z)
  {
    assert a + x + b + y + c + z + d == a + x + (b + y + c + z + d);
    ContainsIn(a, x, b + y + c + z + d);
    assert a + x + b + y + c + z + d == (a + x + b) + y + (c + z + d);
    ContainsIn(a + x + b, y, c + z + d);
    ContainsIn(a + x + b + y + c, z, d);
  }

  lemma EndShows(head: string, a: string, x: string, d: string)
    ensures Contains(head + (a + x + d), x)
  {
    assert head + (a + x + d) == (head + a) + x + d;
    ContainsIn(head + a, x, d);
  }

  function ToolHead(tr: ToolResult): string {
    "### `" + tr.tool + " " + tr.args + "`\nExit code: " + Decimal(tr.exitCode)
    + "\nStdout:\n```\n" + Trim(tr.stdout) + "\n```"
  }

  lemma HeadShows(tr: ToolResult)
    ensures Contains(ToolHead(tr), tr.args) && Contains(ToolHead(tr), Decimal(tr.exitCode))
    ensures Contains(ToolHead(tr), Trim(tr.stdout))
  {
    PiecesShow("### `" + tr.tool + " ", tr.args, "`\nExit code: ", Decimal(tr.exitCode), "\nStdout:\n```\n",
               Trim(tr.stdout), "\n```");
  }

  /** What the text of a tool call shows. */
  lemma ToolShows(tr: ToolResult)
    ensures Contains(FormatTool(tr), tr.args) && Contains(FormatTool(tr), Decimal(tr.exitCode))
    ensures Contains(FormatTool(tr), Trim(tr.stdout))
    ensures Trim(tr.stderr) != "" ==> Contains(FormatTool(tr), Trim(tr.stderr))
  {
    var err := Trim(tr.stderr);
    var e := if err == "" then "" else "\nStderr:\n```\n" + err + "\n```";
    assert FormatTool(tr) == ToolHead(tr) + e;
    HeadShows(tr);
    ContainsLonger(ToolHead(tr), e, tr.args);
    ContainsLonger(ToolHead(tr), e, Decimal(tr.exitCode));
    ContainsLonger(ToolHead(tr), e, Trim(tr.stdout));
    if err != "" {
      EndShows(ToolHead(tr), "\nStderr:\n```\n", err, "\n```");
    }
  }

  /** The calls that are shown are those that were not skipped, in order. */
  lemma {:induction false} UnskippedAre(trs: seq<ToolResult>)
    ensures forall tr :: tr in Unskipped(trs) <==> tr in trs && !tr.skipped
    ensures |Unskipped(trs)| <= |trs|
  {
    if trs != [] {
      UnskippedAre(trs[1..]);
      assert trs == [trs[0]] + trs[1..];
    }
  }

  /** The text of a step's full result shows every tool call that was not skipped, and an LLM step's output. */
  lemma StepShows(id: string, result: StepResult)
    requires !result.skipped
    ensures result.stepType == Tool ==>
              forall tr | tr in result.toolResults && !tr.skipped ::
                Contains(FormatStepResult(id, result), FormatTool(tr))
    ensures result.stepType == Llm && result.llmOutput.Some? ==>
              Contains(FormatStepResult(id, result), result.llmOutput.value)
  {
    var head := "## Step `" + id + "`\n";
    if result.stepType == Tool {
      var texts := FormatTools(result.toolResults);
      var body := Join(texts, "\n");
      assert FormatStepResult(id, result) == head + body + "\n";
      ContainsIn(head, body, "\n");
      forall tr | tr in result.toolResults && !tr.skipped
        ensures Contains(FormatStepResult(id, result), FormatTool(tr))
      {
        UnskippedAre(result.toolResults);
        var i :| 0 <= i < |Unskipped(result.toolResults)| && Unskipped(result.toolResults)[i] == tr;
        JoinContains(texts, "\n", i);
        ContainsTrans(FormatStepResult(id, result), body, FormatTool(tr));
      }
    } else if result.llmOutput.Some? {
      assert FormatStepResult(id, result) == head + result.llmOutput.value + "\n";
      ContainsIn(head, result.llmOutput.value, "\n");
    }
  }

  /** A recorded ancestor that no LLM ancestor that ran comes after. */
  ghost predicate Uncovered(sm: map<string, StepDef>, order: seq<string>, results: Results, current: string, a: string)
  {
    && a in order && a in results && Reaches(sm, current, a)
    && forall b | LastLlm(sm, order, results, current, b) :: Before(order, b, a)
  }

  lemma FullIsThere(parts: seq<Part>, from: nat, order: seq<string>, results: Results, wanted: iset<string>,
                    a: string)
    returns (i: nat)
    requires from <= |parts| && FullResults(parts[from..], order, results, wanted) && a in wanted && a in results
    ensures i < |parts| && parts[i] == Full(a, results[a])
  {
    var rest := parts[from..];
    assert HasPart(rest, a);
    var j :| 0 <= j < |rest| && rest[j].id == a;
    i := from + j;
    assert parts[i] == rest[j];
  }

  lemma UncoveredAreWanted(steps: seq<StepDef>, order: seq<string>, results: Results, current: string)
    returns (from: nat, wanted: iset<string>)
    requires NoDuplicates(order)
    ensures var parts := PartsFor(steps, order, results, current);
            from <= |parts| && FullResults(parts[from..], order, results, wanted)
    ensures forall a | Uncovered(StepMap(steps), order, results, current, a) :: a in wanted
  {
    var sm, parts := StepMap(steps), PartsFor(steps, order, results, current);
    var b := Boundary(steps, order, results, current);
    BoundaryIsLast(steps, order, results, current);
    PartsAre(steps, order, results, current);
    from := if b.Some? && results[b.value].llmOutput.Some? then 1 else 0;
    wanted := if b.Some? then AncestorsAfter(sm, order, current, b.value) else AllAncestors(sm, order, current);
    assert parts[0..] == parts;
  }

  lemma UncoveredIsShown(steps: seq<StepDef>, order: seq<string>, results: Results, current: string, a: string)
    returns (i: nat)
    requires NoDuplicates(order) && Uncovered(StepMap(steps), order, results, current, a)
    ensures var parts := PartsFor(steps, order, results, current);
            i < |parts| && parts[i] == Full(a, results[a])
  {
    var from, wanted := UncoveredAreWanted(steps, order, results, current);
    i := FullIsThere(PartsFor(steps, order, results, current), from, order, results, wanted, a);
  }

  /** The text of the context shows the tool calls of every ancestor that no LLM step has digested by position. */
  lemma ContextShowsTools(steps: seq<StepDef>, order: seq<string>, results: Results, current: string, a: string,
                          tr: ToolResult)
    requires NoDuplicates(order) && Uncovered(StepMap(steps), order, results, current, a)
    requires results[a].stepType == Tool && !results[a].skipped && tr in results[a].toolResults && !tr.skipped
    ensures var context := Render(PartsFor(steps, order, results, current));
            && Contains(context, tr.args) && Contains(context, Decimal(tr.exitCode))
            && Contains(context, Trim(tr.stdout))
            && (Trim(tr.stderr) != "" ==> Contains(context, Trim(tr.stderr)))
  {
    var parts := PartsFor(steps, order, results, current);
    var context := Render(parts);
    var i := UncoveredIsShown(steps, order, results, current, a);
    PartIsShown(parts, i);
    StepShows(a, results[a]);
    ContainsTrans(context, FormatStepResult(a, results[a]), FormatTool(tr));
    ToolShows(tr);
    ContainsTrans(context, FormatTool(tr), tr.args);
    ContainsTrans(context, FormatTool(tr), Decimal(tr.exitCode));
    ContainsTrans(context, FormatTool(tr), Trim(tr.stdout));
    if Trim(tr.stderr) != "" {
      ContainsTrans(context, FormatTool(tr), Trim(tr.stderr));
    }
  }

  /** A step's text starts with its name, and says of a skipped step that it was. */
  lemma StepIsNamed(id: string, result: StepResult)
    requires result.skipped || result.stepType == Tool || result.llmOutput.Some?
    ensures "## Step `" + id + "`" <= FormatStepResult(id, result)
    ensures result.skipped ==> FormatStepResult(id, result) == "## Step `" + id + "` \U{2014} SKIPPED\n"
  {
  }

  lemma PrefixIsContained(s: string, prefix: string)
    requires prefix <= s
    ensures Contains(s, prefix)
  {
  }

  /** The context names every ancestor that no LLM step has digested by position, skipped ones as such. */
  lemma ContextNamesSteps(steps: seq<StepDef>, order: seq<string>, results: Results, current: string, a: string)
    requires NoDuplicates(order) && Uncovered(StepMap(steps), order, results, current, a)
    requires results[a].skipped || results[a].stepType == Tool || results[a].llmOutput.Some?
    ensures var context := Render(PartsFor(steps, order, results, current));
            && Contains(context, "## Step `" + a + "`")
            && (results[a].skipped ==> Contains(context, "## Step `" + a + "` \U{2014} SKIPPED\n"))
  {
    var parts := PartsFor(steps, order, results, current);
    var i := UncoveredIsShown(steps, order, results, current, a);
    PartIsShown(parts, i);
    StepIsNamed(a, results[a]);
    PrefixIsContained(FormatStepResult(a, results[a]), "## Step `" + a + "`");
    ContainsTrans(Render(parts), FormatStepResult(a, results[a]), "## Step `" + a + "`");
  }

  /** The context when nothing comes after the last LLM ancestor that ran, letter by letter. */
  lemma ContextOfOutput(b: string, output: string)
    ensures Render([Summary(b, output)]) == "## Summary from step `" + b + "` (compressed)\n" + output + "\n"
  {
    var parts := [Summary(b, output)];
    assert seq(|parts|, i requires 0 <= i < |parts| => FormatPart(parts[i])) == [FormatSummary(b, output)];
  }
}
