/**
 * The agent state document: stamping, appending to and replacing a section.
 * The line edits are applied to the markdown notions of heading, stamp, blank line and bullet.
 */
module StateDocument {
  import opened Text
  import opened DocumentLines
  import opened LineEditing

  // ----- Kinds of lines

  const STAMP_PREFIX := "Last updated:"

  predicate IsStampLine(line: string) {
    StartsWith(TrimStart(line), STAMP_PREFIX)
  }

  function DropHashes(s: string): string {
    if s != "" && s[0] == '#' then DropHashes(s[1..]) else s
  }

  /** A markdown ATX heading of any level. */
  predicate IsHeading(line: string) {
    var trimmed := TrimStart(line);
    && StartsWith(trimmed, "#")
    && var after := DropHashes(trimmed);
       after == "" || after[0] == ' '
  }

  predicate IsBlank(line: string) {
    Trim(line) == ""
  }

  /** A level-two or level-three heading with exactly this title. */
  predicate MatchesSectionHeading(line: string, section: string) {
    var trimmed := TrimStart(line);
    || (StartsWith(trimmed, "## ") && TrimEnd(trimmed[3..]) == section)
    || (StartsWith(trimmed, "### ") && TrimEnd(trimmed[4..]) == section)
  }

  function SectionMarks(section: string): Marks {
    Marks(l => MatchesSectionHeading(l, section), IsHeading, IsBlank, "## " + section)
  }

  function Bullet(line: string): string {
    if StartsWith(TrimStart(line), "-") || StartsWith(TrimStart(line), "*") then line else "- " + line
  }

  function StampLine(now: string): string {
    STAMP_PREFIX + " " + now
  }

  lemma SectionHeadingIsHeading(line: string, section: string)
    requires MatchesSectionHeading(line, section)
    ensures IsHeading(line)
  {
    var t := TrimStart(line);
    if StartsWith(t, "## ") {
      HashesThenSpace(t, 2);
    } else {
      HashesThenSpace(t, 3);
    }
  }

  lemma {:induction false} HashesThenSpace(t: string, n: nat)
    requires n < |t| && t[n] == ' ' && forall j | 0 <= j < n :: t[j] == '#'
    ensures DropHashes(t) == t[n..]
  {
    if n > 0 {
      HashesThenSpace(t[1..], n - 1);
      assert t[1..][n - 1..] == t[n..];
    }
  }

  predicate NoTrailingSpace(s: string) {
    s == "" || !IsWhitespace(s[|s| - 1])
  }

  lemma {:induction false} TrimEndKeeps(s: string)
    ensures TrimEnd(s) == s <==> NoTrailingSpace(s)
  {
  }

  lemma TrimEndNeverEndsInSpace(s: string)
    ensures NoTrailingSpace(TrimEnd(s))
  {
  }

  lemma TitlesEndPlain(line: string, section: string)
    requires MatchesSectionHeading(line, section)
    ensures NoTrailingSpace(section)
  {
    var t := TrimStart(line);
    if StartsWith(t, "## ") && TrimEnd(t[3..]) == section {
      TrimEndNeverEndsInSpace(t[3..]);
    } else {
      TrimEndNeverEndsInSpace(t[4..]);
    }
  }

  /** The heading written for a new section is found again unless its title ends in whitespace. */
  lemma {:induction false} TitleIsFound(section: string)
    ensures MatchesSectionHeading("## " + section, section) <==> NoTrailingSpace(section)
    ensures !NoTrailingSpace(section) ==> forall l :: !MatchesSectionHeading(l, section)
  {
    var line := "## " + section;
    assert NoTrailingSpace(section) ==> MatchesSectionHeading(line, section) by {
      assert line[0] == '#' && TrimStart(line) == line && line[..3] == "## " && line[3..] == section;
      TrimEndKeeps(section);
    }
    forall l | MatchesSectionHeading(l, section) ensures NoTrailingSpace(section) {
      TitlesEndPlain(l, section);
    }
  }

  lemma TrimStartOfBullet(line: string)
    ensures TrimStart(Bullet(line)) != ""
    ensures TrimStart(Bullet(line))[0] == '-' || TrimStart(Bullet(line))[0] == '*'
  {
    var b := Bullet(line);
    if b != line {
      assert b[0] == '-' && TrimStart(b) == b;
    }
  }

  /** A bullet is neither a heading nor a stamp nor blank. */
  lemma BulletIsPlain(line: string, section: string)
    ensures PlainLine(SectionMarks(section), Bullet(line)) && !IsStampLine(Bullet(line))
  {
    var b, t := Bullet(line), TrimStart(Bullet(line));
    TrimStartOfBullet(line);
    assert !IsHeading(b) && !IsStampLine(b);
    if MatchesSectionHeading(b, section) {
      SectionHeadingIsHeading(b, section);
    }
    assert !IsWhitespace(t[0]);
  }

  lemma EmptyLineIsPlain(section: string)
    ensures !MatchesSectionHeading("", section) && !IsHeading("") && !IsStampLine("")
  {
  }

  lemma StampLineIsStamp(now: string)
    ensures IsStampLine(StampLine(now)) && StampLine(now) != ""
  {
    var s := StampLine(now);
    assert s[0] == 'L' && TrimStart(s) == s && STAMP_PREFIX <= s;
  }

  // ----- The operations on documents

  function Stamped(lines: seq<string>, now: string): seq<string> {
    StampLines(lines, IsStampLine, IsHeading, StampLine(now))
  }

  function StampText(body: string, now: string): string {
    Finish(Stamped(Lines(body), now), body)
  }

  function AppendText(body: string, section: string, line: string): string {
    Finish(AppendLines(Lines(body), SectionMarks(section), Bullet(line)), body)
  }

  function ReplaceText(body: string, section: string, content: string): string {
    Finish(ReplaceLines(Lines(body), SectionMarks(section), Lines(content)), body)
  }

  method Stamp(body: string, now: string) returns (doc: string)
    ensures doc == StampText(body, now)
  {
    var out := PlaceStamp(Lines(body), IsStampLine, IsHeading, StampLine(now));
    doc := Finish(out, body);
  }

  method AppendToSection(body: string, section: string, line: string) returns (doc: string)
    ensures doc == AppendText(body, section, line)
  {
    var out := PlaceBullet(Lines(body), SectionMarks(section), Bullet(line));
    doc := Finish(out, body);
  }

  method ReplaceSection(body: string, section: string, content: string) returns (doc: string)
    ensures doc == ReplaceText(body, section, content)
  {
    var out := PlaceContent(Lines(body), SectionMarks(section), Lines(content));
    doc := Finish(out, body);
  }
}
