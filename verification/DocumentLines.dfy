/**
 * Splitting a document into lines and putting it back together: what a trip through the file
 * does to lines, and in particular to blank ones at the end.
 */
module DocumentLines {
  import opened Wrappers
  import opened Text

  function StripCr(line: string): string {
    if line != "" && line[|line| - 1] == '\r' then line[..|line| - 1] else line
  }

  /** `str::lines`. */
  function Lines(s: string): (r: seq<string>)
    ensures forall l | l in r :: '\n' !in l
    decreases |s|
  {
    if s == "" then []
    else match Find(s, '\n')
      case None => [s]
      case Some(i) => [StripCr(s[..i])] + Lines(s[i + 1..])
  }

  /** `join_preserving_trailing_newline`: a document that was not empty ends with a newline. */
  function Finish(lines: seq<string>, original: string): string {
    var s := Join(lines, "\n");
    if original != "" && !(s != "" && s[|s| - 1] == '\n') then s + "\n" else s
  }

  /** A line as an editor of LF documents sees it. */
  predicate CleanLine(l: string) {
    '\n' !in l && '\r' !in l
  }

  ghost predicate Clean(lines: seq<string>) {
    forall l | l in lines :: CleanLine(l)
  }

  predicate EndsBlank(lines: seq<string>) {
    lines != [] && lines[|lines| - 1] == ""
  }

  predicate EndsTwoBlank(lines: seq<string>) {
    |lines| >= 2 && lines[|lines| - 1] == "" && lines[|lines| - 2] == ""
  }

  /** The lines that survive one pass through the file: a trailing blank line is dropped. */
  function Kept(lines: seq<string>): seq<string> {
    if |lines| >= 2 && EndsBlank(lines) then lines[..|lines| - 1] else lines
  }

  lemma LinesCons(l: string, rest: string)
    requires CleanLine(l)
    ensures Lines(l + ("\n" + rest)) == [l] + Lines(rest)
  {
    var s := l + ("\n" + rest);
    var n := |l|;
    assert s[n] == '\n' && s[..n] == l && s[n + 1..] == rest;
    FirstIsFound(s, '\n', n);
    assert StripCr(l) == l by {
      assert l != "" ==> l[|l| - 1] in l;
    }
  }

  lemma JoinCons(lines: seq<string>)
    requires |lines| > 1
    ensures Join(lines, "\n") == lines[0] + ("\n" + Join(lines[1..], "\n"))
  {
  }

  lemma {:induction false} LinesOfTerminated(lines: seq<string>)
    requires Clean(lines) && lines != []
    ensures Lines(Join(lines, "\n") + "\n") == lines
  {
    var l := lines[0];
    if |lines| == 1 {
      LinesCons(l, "");
      assert l + "\n" == l + ("\n" + "") && lines == [l];
    } else {
      var rest := Join(lines[1..], "\n");
      assert Join(lines, "\n") + "\n" == l + ("\n" + (rest + "\n")) by {
        JoinCons(lines);
      }
      LinesCons(l, rest + "\n");
      LinesOfTerminated(lines[1..]);
      assert lines == [l] + lines[1..];
    }
  }

  lemma LinesOfOne(l: string)
    requires CleanLine(l) && l != ""
    ensures Lines(l) == [l]
  {
    assert Find(l, '\n').None?;
  }

  lemma CleanRest(lines: seq<string>)
    requires Clean(lines) && |lines| > 1 && !EndsBlank(lines)
    ensures Clean(lines[1..]) && !EndsBlank(lines[1..])
  {
  }

  lemma {:induction false} LinesOfUnterminated(lines: seq<string>)
    requires Clean(lines) && lines != [] && !EndsBlank(lines)
    ensures Lines(Join(lines, "\n")) == lines
  {
    var l := lines[0];
    if |lines| == 1 {
      LinesOfOne(l);
      assert lines == [l];
    } else {
      CleanRest(lines);
      LinesOfUnterminated(lines[1..]);
      JoinCons(lines);
      LinesCons(l, Join(lines[1..], "\n"));
      assert lines == [l] + lines[1..];
    }
  }

  /** A trailing blank line is only the newline that ends the line before it. */
  lemma {:induction false} JoinWithBlank(lines: seq<string>)
    requires lines != []
    ensures Join(lines + [""], "\n") == Join(lines, "\n") + "\n"
  {
    assert (lines + [""])[1..] == lines[1..] + [""];
    if |lines| > 1 {
      JoinWithBlank(lines[1..]);
    }
  }

  lemma {:induction false} JoinEnd(lines: seq<string>)
    requires Clean(lines) && lines != [] && !EndsBlank(lines)
    ensures Join(lines, "\n") != "" && Join(lines, "\n")[|Join(lines, "\n")| - 1] != '\n'
  {
    if |lines| == 1 {
      assert CleanLine(lines[0]) && lines[0][|lines[0]| - 1] in lines[0];
    } else {
      JoinEnd(lines[1..]);
      var rest := Join(lines[1..], "\n");
      assert Join(lines, "\n") == (lines[0] + "\n") + rest;
      assert ((lines[0] + "\n") + rest)[|lines[0]| + |rest|] == rest[|rest| - 1];
    }
  }

  lemma FinishKept(lines: seq<string>, original: string)
    requires Clean(lines) && lines != [] && lines != [""]
    ensures Finish(lines, original)
            == Join(Kept(lines), "\n") + if original == "" && !EndsBlank(lines) then "" else "\n"
  {
    if EndsBlank(lines) {
      var init := Kept(lines);
      assert lines == init + [""];
      JoinWithBlank(init);
    } else {
      JoinEnd(lines);
    }
  }

  /** Reading back a finished document gives the lines written, short of one trailing blank line. */
  lemma LinesOfFinish(lines: seq<string>, original: string)
    requires Clean(lines) && lines != [] && lines != [""]
    ensures Lines(Finish(lines, original)) == Kept(lines)
  {
    FinishKept(lines, original);
    if original == "" && !EndsBlank(lines) {
      LinesOfUnterminated(lines);
      assert Join(lines, "\n") + "" == Join(lines, "\n");
    } else {
      LinesOfTerminated(Kept(lines));
    }
  }

  /** Dropping a trailing blank line shortens the text; without one nothing is dropped. */
  lemma KeptTextIff(lines: seq<string>)
    requires lines != [] && lines != [""]
    ensures Join(Kept(lines), "\n") + "\n" == Join(lines, "\n") + "\n" <==> !EndsBlank(lines)
  {
    if EndsBlank(lines) {
      assert |lines| >= 2;
      assert lines == Kept(lines) + [""];
      JoinWithBlank(Kept(lines));
      assert |Join(lines, "\n") + "\n"| > |Join(Kept(lines), "\n") + "\n"|;
    }
  }

  lemma {:induction false} JoinIsClean(lines: seq<string>)
    requires Clean(lines)
    ensures '\r' !in Join(lines, "\n")
  {
    if lines != [] {
      assert CleanLine(lines[0]);
      if |lines| > 1 {
        JoinIsClean(lines[1..]);
      }
    }
  }

  /** Every nonblank line of a finished document is read back. */
  lemma FinishReads(lines: seq<string>, original: string, l: string)
    requires Clean(lines) && l in lines && l != ""
    ensures forall x | x in lines && x != "" :: x in Lines(Finish(lines, original))
    ensures '\r' !in Finish(lines, original)
  {
    assert lines != [] && lines != [""];
    LinesOfFinish(lines, original);
    JoinIsClean(lines);
    forall x | x in lines && x != "" ensures x in Kept(lines) {
      var k :| 0 <= k < |lines| && lines[k] == x;
    }
  }
}
