/** What the edits of the agent state document guarantee: order, idempotence, and no lost line. */
module StateEdits {
  import opened Wrappers
  import opened Text
  import opened DocumentLines
  import opened LineEditing
  import opened StateDocument
  import opened DocumentShape

  // ----- Appending

  function Bullets(ls: seq<string>): seq<string> {
    seq(|ls|, i requires 0 <= i < |ls| => Bullet(ls[i]))
  }

  /**
   * Any number of appends to a section put their bullets below its last nonblank line, in order,
   * and change nothing else; a missing section is first added at the end.
   */
  lemma AppendsKeepOrder(lines: seq<string>, section: string, ls: seq<string>)
    requires NoTrailingSpace(section) && ls != []
    ensures var m := SectionMarks(section);
            AppendAll(lines, m, Bullets(ls)) ==
            if HasSection(lines, m) then
              lines[..InsertionPoint(lines, m)] + Bullets(ls) + lines[InsertionPoint(lines, m)..]
            else Separated(lines) + [m.title, ""] + Bullets(ls)
  {
    var m := SectionMarks(section);
    forall b | b in Bullets(ls) ensures PlainLine(m, b) {
      var i :| 0 <= i < |ls| && b == Bullet(ls[i]);
      BulletIsPlain(ls[i], section);
    }
    SectionIsFindable(section);
    if HasSection(lines, m) {
      AppendAllExisting(lines, m, Bullets(ls));
    } else {
      AppendAllNew(lines, m, Bullets(ls));
    }
  }

  lemma SectionIsFindable(section: string)
    requires NoTrailingSpace(section)
    ensures Findable(SectionMarks(section))
  {
    TitleIsFound(section);
    EmptyLineIsPlain(section);
  }

  lemma OneTitlePerHeading(line: string, s1: string, s2: string)
    requires MatchesSectionHeading(line, s1) && MatchesSectionHeading(line, s2)
    ensures s1 == s2
  {
    var t := TrimStart(line);
    assert StartsWith(t, "## ") ==> t[2] == "## "[2];
    assert StartsWith(t, "### ") ==> t[2] == "### "[2];
  }

  lemma SectionsAreApart(lines: seq<string>, s1: string, s2: string)
    requires HasSection(lines, SectionMarks(s1)) && HasSection(lines, SectionMarks(s2)) && s1 != s2
    ensures SectionEnd(lines, SectionMarks(s1)) <= SectionStart(lines, SectionMarks(s2))
            || SectionEnd(lines, SectionMarks(s2)) <= SectionStart(lines, SectionMarks(s1))
  {
    var h1, h2 := SectionStart(lines, SectionMarks(s1)), SectionStart(lines, SectionMarks(s2));
    SectionHeadingIsHeading(lines[h1], s1);
    SectionHeadingIsHeading(lines[h2], s2);
    if h1 == h2 {
      OneTitlePerHeading(lines[h1], s1, s2);
    }
  }

  /** Appends to two different existing sections give the same document in either order. */
  lemma AppendsToSectionsCommute(lines: seq<string>, s1: string, l1: string, s2: string, l2: string)
    requires HasSection(lines, SectionMarks(s1)) && HasSection(lines, SectionMarks(s2)) && s1 != s2
    ensures AppendLines(AppendLines(lines, SectionMarks(s1), Bullet(l1)), SectionMarks(s2), Bullet(l2))
            == AppendLines(AppendLines(lines, SectionMarks(s2), Bullet(l2)), SectionMarks(s1), Bullet(l1))
  {
    BulletIsPlain(l1, s1);
    BulletIsPlain(l1, s2);
    BulletIsPlain(l2, s1);
    BulletIsPlain(l2, s2);
    SectionsAreApart(lines, s1, s2);
    if SectionEnd(lines, SectionMarks(s1)) <= SectionStart(lines, SectionMarks(s2)) {
      AppendsCommute(lines, SectionMarks(s1), Bullet(l1), SectionMarks(s2), Bullet(l2));
    } else {
      AppendsCommute(lines, SectionMarks(s2), Bullet(l2), SectionMarks(s1), Bullet(l1));
    }
  }

  // ----- Replacing

  lemma HeadingFreeContent(section: string, content: seq<string>)
    requires forall l | l in content :: !IsHeading(l)
    ensures FreeOfHeadings(SectionMarks(section), content)
  {
    forall l | l in content && MatchesSectionHeading(l, section) ensures IsHeading(l) {
      SectionHeadingIsHeading(l, section);
    }
  }

  /**
   * Setting a section twice is setting it once, on every document, exactly when the title can be
   * found again and the content holds no heading; otherwise the document keeps growing.
   */
  lemma SetSectionTwiceIff(lines: seq<string>, section: string, content: seq<string>)
    ensures var m := SectionMarks(section);
            ReplaceLines(ReplaceLines(lines, m, content), m, content) == ReplaceLines(lines, m, content)
            <==> NoTrailingSpace(section) && forall l | l in content :: !IsHeading(l)
  {
    SectionIsWellMarked(section);
    ReplaceTwiceIff(lines, SectionMarks(section), content);
  }

  lemma SectionIsWellMarked(section: string)
    ensures WellMarked(SectionMarks(section))
    ensures SectionMarks(section).section(SectionMarks(section).title) <==> NoTrailingSpace(section)
  {
    TitleIsFound(section);
    EmptyLineIsPlain(section);
    forall l | MatchesSectionHeading(l, section) ensures IsHeading(l) {
      SectionHeadingIsHeading(l, section);
    }
  }

  /** A replaced section reads back as the content, and the lines around it are as they were. */
  lemma SetSectionReadsBack(lines: seq<string>, section: string, content: seq<string>)
    requires NoTrailingSpace(section) && forall l | l in content :: !IsHeading(l)
    ensures Findable(SectionMarks(section)) && FreeOfHeadings(SectionMarks(section), content)
    ensures ReadsBack(lines, SectionMarks(section), content, ReplaceLines(lines, SectionMarks(section), content))
  {
    SectionIsFindable(section);
    HeadingFreeContent(section, content);
    ReplaceReadsBack(lines, SectionMarks(section), content);
  }

  // ----- Stamping

  /** Stamping at one time and then at another leaves the later stamp only. */
  lemma RestampedLines(lines: seq<string>, t1: string, t2: string)
    ensures StampLines(StampLines(lines, IsStampLine, IsHeading, StampLine(t1)), IsStampLine, IsHeading, StampLine(t2))
            == StampLines(lines, IsStampLine, IsHeading, StampLine(t2))
  {
    StampLineIsStamp(t1);
    StampLineIsStamp(t2);
    EmptyLineIsPlain("");
    StampTwice(lines, IsStampLine, IsHeading, StampLine(t1), StampLine(t2));
  }

  lemma {:induction false} LinesAreClean(s: string)
    requires '\r' !in s
    ensures Clean(Lines(s))
    decreases |s|
  {
    if s != "" {
      match Find(s, '\n')
      case None =>
      case Some(i) =>
        LinesAreClean(s[i + 1..]);
        assert forall c | c in s[..i] :: c in s;
        assert StripCr(s[..i]) == s[..i];
    }
  }

  lemma StampedIsClean(lines: seq<string>, now: string)
    requires Clean(lines) && CleanLine(now)
    ensures Clean(Stamped(lines, now)) && Stamped(lines, now) != [] && Stamped(lines, now) != [""]
    ensures StampLine(now) in Stamped(lines, now)
  {
    var stamp, out := StampLine(now), Stamped(lines, now);
    assert stamp in out by {
      StampPresent(lines, IsStampLine, IsHeading, stamp);
    }
    assert stamp != "" by {
      StampLineIsStamp(now);
    }
    assert Clean(out) by {
      StampMembers(lines, IsStampLine, IsHeading, stamp);
      StampLineIsClean(now);
    }
  }

  lemma StampLineIsClean(now: string)
    requires CleanLine(now)
    ensures CleanLine(StampLine(now))
  {
    assert forall c | c in STAMP_PREFIX + " " :: c != '\n' && c != '\r';
    assert forall c | c in StampLine(now) :: c in STAMP_PREFIX + " " || c in now;
  }

  /** Dropping a trailing blank line and stamping commute on a stamped document. */
  lemma StampOfKept(lines: seq<string>, t1: string, t2: string)
    ensures Stamped(Kept(Stamped(lines, t1)), t2) == Kept(Stamped(lines, t2))
  {
    StampLineIsStamp(t1);
    StampLineIsStamp(t2);
    EmptyLineIsPlain("");
    StampAfterDrop(lines, IsStampLine, IsHeading, StampLine(t1), StampLine(t2));
  }

  lemma KeptEndsBlankIff(lines: seq<string>)
    requires lines != [""]
    ensures EndsBlank(Kept(lines)) <==> EndsTwoBlank(lines)
  {
  }

  /**
   * As text, stamping twice is stamping once exactly when the document neither is one blank line nor
   * ends in two: each pass through the file drops a trailing blank line.
   */
  lemma StampTextTwiceIff(body: string, t1: string, t2: string)
    requires '\r' !in body && CleanLine(t1) && CleanLine(t2)
    ensures StampText(StampText(body, t1), t2) == StampText(body, t2)
            <==> Lines(body) != [""] && !EndsTwoBlank(Lines(body))
  {
    StampTextTwiceForm(body, t1, t2);
    assert Stamped(Lines(body), t2) != [""] by {
      LinesAreClean(body);
      StampedIsClean(Lines(body), t2);
    }
    KeptEndsBlankIff(Stamped(Lines(body), t2));
    StampLineIsStamp(t2);
    EmptyLineIsPlain("");
    StampEndsTwoBlankIff(Lines(body), IsStampLine, IsHeading, StampLine(t2));
  }

  lemma StampTextTwiceForm(body: string, t1: string, t2: string)
    requires '\r' !in body && CleanLine(t1) && CleanLine(t2)
    ensures StampText(StampText(body, t1), t2) == StampText(body, t2)
            <==> !EndsBlank(Kept(Stamped(Lines(body), t2)))
  {
    var lines, text1 := Lines(body), StampText(body, t1);
    var kept := Kept(Stamped(lines, t2));
    StampTextForm(body, t1);
    StampTextForm(body, t2);
    StampTextForm(text1, t2);
    StampOfKept(lines, t1, t2);
    assert kept != [] && kept != [""] by {
      LinesAreClean(body);
      StampedIsClean(lines, t2);
      StampLineIsStamp(t2);
      KeptKeeps(Stamped(lines, t2), StampLine(t2));
    }
    KeptTextIff(kept);
  }

  lemma OneBlankLine()
    ensures Lines("\n") == [""]
  {
    LinesCons("", "");
    assert "" + ("\n" + "") == "\n";
  }

  lemma TwoBlankLines()
    ensures Lines("a\n\n\n") == ["a", "", ""]
  {
    LinesCons("a", "\n\n");
    assert "a" + ("\n" + "\n\n") == "a\n\n\n";
    LinesCons("", "\n");
    assert "" + ("\n" + "\n") == "\n\n";
    OneBlankLine();
  }

  /** A document of one blank line, and one that ends in two, change under a second stamp. */
  lemma SecondStampDropsBlank(body: string, t1: string, t2: string)
    requires body == "\n" || body == "a\n\n\n"
    requires CleanLine(t1) && CleanLine(t2)
    ensures StampText(StampText(body, t1), t2) != StampText(body, t2)
  {
    assert Lines(body) == [""] || EndsTwoBlank(Lines(body)) by {
      OneBlankLine();
      TwoBlankLines();
    }
    StampTextTwiceIff(body, t1, t2);
  }

  lemma StampTextForm(body: string, now: string)
    requires '\r' !in body && CleanLine(now)
    ensures StampText(body, now) == Join(Kept(Stamped(Lines(body), now)), "\n") + "\n"
    ensures Lines(StampText(body, now)) == Kept(Stamped(Lines(body), now))
    ensures '\r' !in StampText(body, now)
  {
    LinesAreClean(body);
    StampedIsClean(Lines(body), now);
    FinishKept(Stamped(Lines(body), now), body);
    LinesOfFinish(Stamped(Lines(body), now), body);
    JoinIsClean(Stamped(Lines(body), now));
    assert body == "" ==> Stamped(Lines(body), now) == [StampLine(now), ""];
  }

  lemma KeptKeeps(lines: seq<string>, l: string)
    requires l in lines && l != ""
    ensures l in Kept(lines)
  {
  }

  // ----- Whole operations

  datatype Edit =
    | Write(content: string)
    | Append(section: string, line: string)
    | SetSection(section: string, content: string)

  /** The document an operation leaves, given the one it found and the time it stamps. */
  function Apply(edit: Edit, now: string, body: string): string {
    match edit
    case Write(content) => StampText(content, now)
    case Append(section, line) => StampText(AppendText(body, section, line), now)
    case SetSection(section, content) => StampText(ReplaceText(body, section, content), now)
  }

  /** A stamped document read back: the stamp is there, and every nonblank line that is no stamp survives. */
  lemma StampTextReads(body: string, now: string)
    requires '\r' !in body && CleanLine(now)
    ensures StampLine(now) in Lines(StampText(body, now))
    ensures forall l | l in Lines(body) && l != "" && !IsStampLine(l) :: l in Lines(StampText(body, now))
    ensures '\r' !in StampText(body, now)
  {
    LinesAreClean(body);
    StampedIsClean(Lines(body), now);
    StampLineIsStamp(now);
    FinishReads(Stamped(Lines(body), now), body, StampLine(now));
    forall l | l in Lines(body) && l != "" && !IsStampLine(l) ensures l in Stamped(Lines(body), now) {
      StampKeeps(Lines(body), IsStampLine, IsHeading, StampLine(now), l);
    }
  }

  lemma BulletIsClean(line: string)
    requires CleanLine(line)
    ensures CleanLine(Bullet(line)) && Bullet(line) != ""
  {
    assert Bullet(line) != "" by {
      TrimStartOfBullet(line);
    }
    CleanConcat("- ", line);
  }

  lemma CleanConcat(a: string, b: string)
    requires CleanLine(a) && CleanLine(b)
    ensures CleanLine(a + b)
  {
  }

  lemma TitleIsClean(section: string)
    requires CleanLine(section)
    ensures CleanLine(SectionMarks(section).title)
  {
  }

  lemma AppendTextReads(body: string, section: string, line: string)
    requires '\r' !in body && CleanLine(section) && CleanLine(line)
    ensures Bullet(line) in Lines(AppendText(body, section, line))
    ensures forall l | l in Lines(body) && l != "" :: l in Lines(AppendText(body, section, line))
    ensures '\r' !in AppendText(body, section, line)
  {
    LinesAreClean(body);
    BulletIsClean(line);
    TitleIsClean(section);
    AppendIsClean(Lines(body), SectionMarks(section), Bullet(line));
    AppendKeeps(Lines(body), SectionMarks(section), Bullet(line));
    FinishReads(AppendLines(Lines(body), SectionMarks(section), Bullet(line)), body, Bullet(line));
  }

  /**
   * After an append its text is in the document, as it is if it is an item and behind a dash otherwise,
   * with the new stamp and every earlier line that is neither empty nor a stamp.
   */
  lemma AppendLosesNothing(body: string, section: string, line: string, now: string)
    requires '\r' !in body && CleanLine(section) && CleanLine(line) && CleanLine(now)
    ensures var doc := Apply(Append(section, line), now, body);
            && '\r' !in doc && (if IsItem(line) then line else "- " + line) in Lines(doc)
            && "Last updated: " + now in Lines(doc)
            && forall l | l in Lines(body) && l != "" && !IsStampLine(l) :: l in Lines(doc)
  {
    AppendTextReads(body, section, line);
    StampTextReads(AppendText(body, section, line), now);
    BulletIsPlain(line, section);
    TrimStartOfBullet(line);
    BulletIs(line);
    StampLineReads(now);
  }

  ghost predicate CleanEdit(edit: Edit) {
    match edit
    case Write(content) => '\r' !in content
    case Append(section, line) => CleanLine(section) && CleanLine(line)
    case SetSection(section, content) => CleanLine(section) && '\r' !in content
  }

  lemma ReplaceTextIsClean(body: string, section: string, content: string)
    requires '\r' !in body && CleanLine(section) && '\r' !in content
    ensures '\r' !in ReplaceText(body, section, content)
  {
    LinesAreClean(body);
    LinesAreClean(content);
    TitleIsClean(section);
    ReplaceIsClean(Lines(body), SectionMarks(section), Lines(content));
    JoinIsClean(ReplaceLines(Lines(body), SectionMarks(section), Lines(content)));
  }

  /** Whatever the operation, the document it leaves carries the new stamp. */
  lemma EditedDocumentIsStamped(edit: Edit, now: string, body: string)
    requires CleanEdit(edit) && CleanLine(now) && '\r' !in body
    ensures "Last updated: " + now in Lines(Apply(edit, now, body)) && '\r' !in Apply(edit, now, body)
  {
    StampLineReads(now);
    match edit {
      case Write(content) =>
        StampTextReads(content, now);
      case Append(section, line) =>
        AppendLosesNothing(body, section, line, now);
      case SetSection(section, content) =>
        ReplaceTextIsClean(body, section, content);
        StampTextReads(ReplaceText(body, section, content), now);
    }
  }
}
