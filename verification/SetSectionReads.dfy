/** What setting a section leaves to be read: the operation on whole documents, its stamp included. */
module SetSectionReads {
  import opened DocumentLines
  import opened LineEditing
  import opened StateDocument
  import opened StateEdits
  import opened SectionReading
  import opened FiledLines

  /** The section of the document reads as the content, blank lines around it apart. */
  predicate SectionReads(text: string, section: string, content: string) {
    ReadsAs(Lines(text), SectionMarks(section), Lines(content))
  }

  /**
   * The stamp spares the section: the document has a stamp line above it; or, the content having none, it
   * has one below or a heading above; or the first stamp line of the content is the new stamp itself.
   */
  predicate StampStaysOut(body: string, section: string, content: string, now: string) {
    var lines, m := Lines(body), SectionMarks(section);
    StampSpares(Above(lines, m), Lines(content), Below(lines, m), IsHeading, IsStampLine, StampLine(now))
  }

  lemma SetSectionForm(body: string, section: string, content: string, now: string)
    requires '\r' !in body && CleanLine(section) && '\r' !in content && CleanLine(now)
    ensures Lines(Apply(SetSection(section, content), now, body))
         == Kept(Stamped(Kept(ReplaceLines(Lines(body), SectionMarks(section), Lines(content))), now))
  {
    ReplaceTextForm(body, section, content);
    StampTextForm(ReplaceText(body, section, content), now);
  }

  lemma SectionStampMarks(section: string, now: string)
    ensures StampMarks(SectionMarks(section), IsStampLine, StampLine(now))
  {
    forall l | IsStampLine(l) ensures !IsHeading(l) {
      StampIsNoHeading(l);
    }
    forall l | MatchesSectionHeading(l, section) ensures IsHeading(l) {
      SectionHeadingIsHeading(l, section);
    }
    StampLineIsStamp(now);
    EmptyLineIsPlain(section);
  }

  /**
   * After a section was set it reads back as the content exactly when its title does not end in
   * whitespace, the content holds no heading and the stamp stays out.
   */
  lemma SetSectionReadsIff(body: string, section: string, content: string, now: string)
    requires '\r' !in body && CleanLine(section) && '\r' !in content && CleanLine(now)
    ensures SectionReads(Apply(SetSection(section, content), now, body), section, content)
        <==> && NoTrailingSpace(section) && (forall l | l in Lines(content) :: !IsHeading(l))
             && StampStaysOut(body, section, content, now)
  {
    var doc, m := Lines(Apply(SetSection(section, content), now, body)), SectionMarks(section);
    EmptyLineIsPlain(section);
    if !NoTrailingSpace(section) {
      TitleIsFound(section);
      assert forall l :: !m.section(l);
    } else if exists l :: l in Lines(content) && IsHeading(l) {
      HeadingEndsReading(doc, m, Lines(content));
    } else {
      SectionReadsIff(body, section, content, now);
    }
  }

  lemma SectionReadsIff(body: string, section: string, content: string, now: string)
    requires '\r' !in body && CleanLine(section) && '\r' !in content && CleanLine(now)
    requires NoTrailingSpace(section) && forall l | l in Lines(content) :: !IsHeading(l)
    ensures SectionReads(Apply(SetSection(section, content), now, body), section, content)
        <==> StampStaysOut(body, section, content, now)
  {
    SetSectionForm(body, section, content, now);
    TitleIsFound(section);
    SectionStampMarks(section, now);
    ReplacedReadsIff(Lines(body), SectionMarks(section), Lines(content), IsStampLine, StampLine(now));
  }

  /** In a document without stamp and heading the stamp of the first section lands inside it. */
  lemma FirstSectionTakesStamp(body: string, section: string, content: string, now: string)
    requires '\r' !in body && CleanLine(section) && '\r' !in content && CleanLine(now)
    requires forall l | l in Lines(body) :: !IsStampLine(l) && !IsHeading(l)
    requires forall l | l in Lines(content) :: !IsStampLine(l)
    ensures !SectionReads(Apply(SetSection(section, content), now, body), section, content)
  {
    assert !StampStaysOut(body, section, content, now) by {
      NothingSpares(Lines(body), SectionMarks(section), Lines(content), IsStampLine, StampLine(now));
    }
    SetSectionReadsIff(body, section, content, now);
  }

  /** Setting a section of the empty document, for one. */
  lemma EmptyDocumentTakesStamp(body: string, section: string, content: string, now: string)
    requires body == "" && content == "x" && CleanLine(section) && CleanLine(now)
    ensures !SectionReads(Apply(SetSection(section, content), now, body), section, content)
  {
    LinesOfOne(content);
    FirstSectionTakesStamp(body, section, content, now);
  }
}
