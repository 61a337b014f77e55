/** How often a line is filed under a section of the state document, through whole operations. */
module FiledLines {
  import opened Text
  import opened DocumentLines
  import opened LineEditing
  import opened StateDocument
  import opened DocumentShape
  import opened StateEdits
  import opened SectionCounts

  /** How often `l` is a line of the document whose nearest heading above is titled `title`. */
  function Filed(text: string, title: string, l: string): nat {
    FiledIn(Lines(text), title, l)
  }

  function FiledIn(lines: seq<string>, title: string, l: string): nat {
    CountIn(false, lines, SectionMarks(title).section, IsHeading, l)
  }

  /** What an append under `section` is filed under: the heading it writes is read without trailing space. */
  function TitleOf(section: string): string {
    TrimEnd(section)
  }

  lemma LevelTwoTitle(line: string, title: string)
    requires |line| >= 3 && line[..3] == "## "
    ensures MatchesSectionHeading(line, title) <==> TrimEnd(line[3..]) == title
  {
    assert line[0] == '#' && line[2] == ' ';
    assert TrimStart(line) == line;
    assert "### "[2] == '#';
  }

  lemma TitleHeads(section: string, title: string)
    ensures MatchesSectionHeading("## " + section, title) <==> TitleOf(section) == title
    ensures IsHeading("## " + section)
  {
    var line := "## " + section;
    assert line[..3] == "## " && line[3..] == section;
    LevelTwoTitle(line, title);
    LevelTwoTitle(line, TitleOf(section));
    SectionHeadingIsHeading(line, TitleOf(section));
  }

  lemma HeadOfSection(lines: seq<string>, section: string, title: string)
    ensures var head := HeadOf(lines, SectionMarks(section));
            IsHeading(head) && (MatchesSectionHeading(head, title) <==> TitleOf(section) == title)
    ensures HasSection(lines, SectionMarks(section)) ==> section == TitleOf(section)
  {
    var m := SectionMarks(section);
    if HasSection(lines, m) {
      var head := lines[SectionStart(lines, m)];
      SectionHeadingIsHeading(head, section);
      TitleIsFound(section);
      TrimEndKeeps(section);
      if MatchesSectionHeading(head, title) {
        OneTitlePerHeading(head, section, title);
      }
    } else {
      TitleHeads(section, title);
    }
  }

  /** A line that edits may move but not change: a bullet, say. */
  predicate Fileable(l: string) {
    l != "" && !IsHeading(l) && !IsStampLine(l)
  }

  lemma BulletIsFileable(line: string)
    ensures Fileable(Bullet(line))
  {
    BulletIsPlain(line, "");
    TrimStartOfBullet(line);
  }

  lemma StampIsNoHeading(l: string)
    requires IsStampLine(l)
    ensures !IsHeading(l)
  {
    assert TrimStart(l)[0] == STAMP_PREFIX[0] == 'L';
  }

  lemma StampFiles(body: string, now: string, title: string, l: string)
    requires '\r' !in body && CleanLine(now) && Fileable(l)
    ensures Filed(StampText(body, now), title, l) == Filed(body, title, l)
  {
    StampTextForm(body, now);
    var lines, mine := Lines(body), SectionMarks(title).section;
    forall x | IsStampLine(x) ensures !IsHeading(x) && x != l {
      StampIsNoHeading(x);
    }
    StampLineIsStamp(now);
    EmptyLineIsPlain("");
    StampCounts(lines, IsStampLine, IsHeading, StampLine(now), mine, l);
    KeptCounts(Stamped(lines, now), mine, IsHeading, l);
  }

  lemma AppendTextForm(body: string, section: string, line: string)
    requires '\r' !in body && CleanLine(section) && CleanLine(line)
    ensures Lines(AppendText(body, section, line))
         == Kept(AppendLines(Lines(body), SectionMarks(section), Bullet(line)))
    ensures '\r' !in AppendText(body, section, line)
  {
    var out := AppendLines(Lines(body), SectionMarks(section), Bullet(line));
    LinesAreClean(body);
    BulletIsClean(line);
    TitleIsClean(section);
    AppendIsClean(Lines(body), SectionMarks(section), Bullet(line));
    AppendKeeps(Lines(body), SectionMarks(section), Bullet(line));
    assert out != [] && out != [""];
    LinesOfFinish(out, body);
    JoinIsClean(out);
  }

  lemma AppendFiles(body: string, section: string, line: string, title: string, l: string)
    requires '\r' !in body && CleanLine(section) && CleanLine(line) && Fileable(l)
    ensures Filed(AppendText(body, section, line), title, l)
         == Filed(body, title, l) + if Bullet(line) == l && TitleOf(section) == title then 1 else 0
  {
    AppendTextForm(body, section, line);
    var lines, m, mine := Lines(body), SectionMarks(section), SectionMarks(title).section;
    HeadOfSection(lines, section, title);
    BulletIsFileable(line);
    EmptyLineIsPlain("");
    AppendCounts(lines, m, Bullet(line), mine, l);
    KeptCounts(AppendLines(lines, m, Bullet(line)), mine, IsHeading, l);
  }

  lemma ReplaceHasTitle(lines: seq<string>, m: Marks, content: seq<string>)
    requires HeadOf(lines, m) != ""
    ensures ReplaceLines(lines, m, content) != [] && ReplaceLines(lines, m, content) != [""]
  {
    var out := ReplaceLines(lines, m, content);
    if HasSection(lines, m) {
      assert out[SectionStart(lines, m)] == HeadOf(lines, m);
    } else {
      assert out[|Separated(lines)|] == m.title;
    }
  }

  lemma ReplaceTextForm(body: string, section: string, content: string)
    requires '\r' !in body && CleanLine(section) && '\r' !in content
    ensures Lines(ReplaceText(body, section, content))
         == Kept(ReplaceLines(Lines(body), SectionMarks(section), Lines(content)))
    ensures '\r' !in ReplaceText(body, section, content)
  {
    var out := ReplaceLines(Lines(body), SectionMarks(section), Lines(content));
    LinesAreClean(body);
    LinesAreClean(content);
    TitleIsClean(section);
    ReplaceIsClean(Lines(body), SectionMarks(section), Lines(content));
    HeadOfSection(Lines(body), section, section);
    EmptyLineIsPlain("");
    ReplaceHasTitle(Lines(body), SectionMarks(section), Lines(content));
    LinesOfFinish(out, body);
    JoinIsClean(out);
  }

  lemma ReplaceFiles(body: string, section: string, content: string, title: string, l: string)
    requires '\r' !in body && CleanLine(section) && '\r' !in content && Fileable(l) && section != title
    ensures Filed(ReplaceText(body, section, content), title, l) >= Filed(body, title, l)
  {
    ReplaceTextForm(body, section, content);
    var lines, m, mine := Lines(body), SectionMarks(section), SectionMarks(title).section;
    HeadOfSection(lines, section, title);
    EmptyLineIsPlain("");
    ReplaceCounts(lines, m, Lines(content), mine, l);
    KeptCounts(ReplaceLines(lines, m, Lines(content)), mine, IsHeading, l);
  }

  // ----- Whole operations

  /** Whether the edit may take lines out of the section: a full write, or setting this very section. */
  predicate Rewrites(edit: Edit, title: string) {
    edit.Write? || (edit.SetSection? && edit.section == title)
  }

  /** An append files its text, as it is if it is an item and behind a dash otherwise. */
  ghost predicate Files(edit: Edit, title: string, l: string) {
    && edit.Append? && TitleOf(edit.section) == title
    && l == if IsItem(edit.line) then edit.line else "- " + edit.line
  }

  /** Two appends to a section file the same line only if their texts are equal but for a dash in front. */
  lemma FiledAlikeIff(e1: Edit, e2: Edit)
    requires e1.Append? && e2.Append? && e1.section == e2.section
    ensures (exists l :: Files(e1, TitleOf(e1.section), l) && Files(e2, TitleOf(e2.section), l))
       <==> (|| e1.line == e2.line
             || (!IsItem(e1.line) && e2.line == "- " + e1.line)
             || (!IsItem(e2.line) && e1.line == "- " + e2.line))
  {
    BulletIs(e1.line);
    BulletIs(e2.line);
    BulletsCollideIff(e1.line, e2.line);
    if Bullet(e1.line) == Bullet(e2.line) {
      assert Files(e1, TitleOf(e1.section), Bullet(e1.line)) && Files(e2, TitleOf(e2.section), Bullet(e1.line));
    }
  }

  /**
   * An append files its own text, once; setting another section takes no filed line away; a full write
   * leaves the lines as the content has them filed.
   */
  lemma EditFiles(edit: Edit, now: string, body: string, title: string, l: string)
    requires CleanEdit(edit) && CleanLine(now) && '\r' !in body && Fileable(l)
    ensures edit.Append? ==>
              Filed(Apply(edit, now, body), title, l)
              == Filed(body, title, l) + if Files(edit, title, l) then 1 else 0
    ensures edit.SetSection? && !Rewrites(edit, title) ==>
              Filed(Apply(edit, now, body), title, l) >= Filed(body, title, l)
    ensures edit.Write? ==> Filed(Apply(edit, now, body), title, l) == Filed(edit.content, title, l)
  {
    match edit {
      case Write(content) =>
        StampFiles(content, now, title, l);
      case Append(section, line) =>
        BulletIs(line);
        AppendFiles(body, section, line, title, l);
        AppendTextForm(body, section, line);
        StampFiles(AppendText(body, section, line), now, title, l);
      case SetSection(section, content) =>
        if section != title {
          ReplaceFiles(body, section, content, title, l);
          ReplaceTextForm(body, section, content);
          StampFiles(ReplaceText(body, section, content), now, title, l);
        }
    }
  }

  lemma FiledIsThere(text: string, title: string, l: string)
    ensures Filed(text, title, l) <= multiset(Lines(text))[l]
  {
    CountIsOccurrences(false, Lines(text), SectionMarks(title).section, IsHeading, l);
  }
}
