/**
 * Which lines are headings, stamps, blank or items, by their characters, and where each edit of the
 * state document puts its lines.
 */
module DocumentShape {
  import opened Text
  import opened DocumentLines
  import opened LineEditing
  import opened StateDocument

  // ----- Kinds of lines, by their characters

  ghost predicate AllSpace(s: string) {
    forall i | 0 <= i < |s| :: IsWhitespace(s[i])
  }

  /** `r` is `s` without leading whitespace. */
  ghost predicate Indented(s: string, r: string) {
    |r| <= |s| && r == s[|s| - |r|..] && AllSpace(s[..|s| - |r|])
  }

  lemma {:induction false} TrimStartIs(s: string, r: string)
    requires Indented(s, r) && r != "" && !IsWhitespace(r[0])
    ensures TrimStart(s) == r
    decreases |s|
  {
    if |r| < |s| {
      assert IsWhitespace(s[..|s| - |r|][0]);
      assert s[1..][|s| - 1 - |r|..] == r;
      assert s[1..][..|s| - 1 - |r|] == s[..|s| - |r|][1..];
      TrimStartIs(s[1..], r);
    } else {
      assert s == r;
    }
  }

  lemma TrimStartIndents(s: string)
    ensures Indented(s, TrimStart(s))
  {
  }

  /** A stamp is a line that reads `Last updated:` behind any indentation. */
  lemma StampLineIff(line: string)
    ensures IsStampLine(line) <==> exists r :: Indented(line, r) && "Last updated:" <= r
  {
    TrimStartIndents(line);
    if r :| Indented(line, r) && "Last updated:" <= r {
      assert r[0] == 'L';
      TrimStartIs(line, r);
    }
  }

  /** One or more hashes, and then the end of the line or a space. */
  ghost predicate HashesThen(r: string, n: nat) {
    0 < n <= |r| && (forall i | 0 <= i < n :: r[i] == '#') && (n < |r| ==> r[n] == ' ')
  }

  lemma {:induction false} DropHashesIs(r: string) returns (n: nat)
    ensures n <= |r| && DropHashes(r) == r[n..] && (forall i | 0 <= i < n :: r[i] == '#')
    ensures n < |r| ==> r[n] != '#'
  {
    n := 0;
    if r != "" && r[0] == '#' {
      var m := DropHashesIs(r[1..]);
      n := m + 1;
      assert forall i | 1 <= i < n :: r[i] == r[1..][i - 1];
    }
  }

  /** A heading is one or more hashes behind any indentation, with a space or nothing behind them. */
  lemma HeadingIff(line: string)
    ensures IsHeading(line) <==> exists r, n: nat :: Indented(line, r) && HashesThen(r, n)
  {
    var trimmed := TrimStart(line);
    TrimStartIndents(line);
    var n := DropHashesIs(trimmed);
    if IsHeading(line) {
      assert HashesThen(trimmed, n);
    }
    if r, k: nat :| Indented(line, r) && HashesThen(r, k) {
      TrimStartIs(line, r);
      assert n == k;
    }
  }

  /** A section's heading has two or three hashes, a space, and its title up to trailing whitespace. */
  lemma SectionHeadingIff(line: string, section: string)
    ensures MatchesSectionHeading(line, section)
       <==> exists r :: Indented(line, r)
                        && (("## " <= r && TrimEnd(r[3..]) == section) || ("### " <= r && TrimEnd(r[4..]) == section))
  {
    TrimStartIndents(line);
    if r :| Indented(line, r) && (("## " <= r && TrimEnd(r[3..]) == section)
                                  || ("### " <= r && TrimEnd(r[4..]) == section)) {
      assert r[0] == '#';
      TrimStartIs(line, r);
    }
  }

  lemma {:induction false} TrimEndEmptyIff(s: string)
    ensures TrimEnd(s) == "" <==> AllSpace(s)
  {
    if s != "" {
      TrimEndEmptyIff(s[..|s| - 1]);
      assert AllSpace(s) <==> AllSpace(s[..|s| - 1]) && IsWhitespace(s[|s| - 1]);
    }
  }

  lemma BlankIff(line: string)
    ensures IsBlank(line) <==> AllSpace(line)
  {
    var t := TrimStart(line);
    TrimStartIndents(line);
    TrimEndEmptyIff(t);
    assert line == line[..|line| - |t|] + t;
  }

  /** A list item: a dash or a star behind any indentation. */
  ghost predicate IsItem(line: string) {
    exists r :: Indented(line, r) && r != "" && (r[0] == '-' || r[0] == '*')
  }

  lemma ItemIff(line: string)
    ensures IsItem(line) <==> StartsWith(TrimStart(line), "-") || StartsWith(TrimStart(line), "*")
  {
    TrimStartIndents(line);
    if r :| Indented(line, r) && r != "" && (r[0] == '-' || r[0] == '*') {
      TrimStartIs(line, r);
    }
  }

  /** An item stands as it is; any other line gets a dash and a space. */
  lemma BulletIs(line: string)
    ensures Bullet(line) == if IsItem(line) then line else "- " + line
    ensures IsItem(Bullet(line))
  {
    ItemIff(line);
    ItemIff(Bullet(line));
    TrimStartOfBullet(line);
  }

  /** Two texts give the same bullet only if they are equal, or one is the bullet of the other. */
  lemma BulletsCollideIff(a: string, b: string)
    ensures Bullet(a) == Bullet(b)
       <==> (a == b || (!IsItem(a) && b == "- " + a) || (!IsItem(b) && a == "- " + b))
  {
    BulletIs(a);
    BulletIs(b);
    assert ("- " + a)[2..] == a && ("- " + b)[2..] == b;
  }

  // ----- Where an append goes

  /** Line `h` is the first heading of the section, and the section goes up to `next`. */
  ghost predicate SectionAt(lines: seq<string>, section: string, h: nat, next: nat) {
    && h < next <= |lines| && MatchesSectionHeading(lines[h], section)
    && (forall j | 0 <= j < h :: !MatchesSectionHeading(lines[j], section))
    && (forall j | h < j < next :: !IsHeading(lines[j]))
    && (next < |lines| ==> IsHeading(lines[next]))
  }

  ghost predicate LacksSection(lines: seq<string>, section: string) {
    forall j | 0 <= j < |lines| :: !MatchesSectionHeading(lines[j], section)
  }

  lemma SectionIsAt(lines: seq<string>, section: string)
    ensures var m := SectionMarks(section);
            if HasSection(lines, m) then SectionAt(lines, section, SectionStart(lines, m), SectionEnd(lines, m))
            else LacksSection(lines, section)
  {
  }

  /** Everything of `lines[lo..hi]` from `at` on is whitespace, and what stands right above `at` is not. */
  ghost predicate TailAt(lines: seq<string>, lo: nat, hi: nat, at: nat) {
    && lo <= at <= hi <= |lines|
    && (forall j | at <= j < hi :: AllSpace(lines[j]))
    && (at > lo ==> !AllSpace(lines[at - 1]))
  }

  lemma TailIsAt(lines: seq<string>, lo: nat, hi: nat)
    requires lo <= hi <= |lines|
    ensures TailAt(lines, lo, hi, BlankTail(lines, IsBlank, lo, hi))
  {
    forall j | 0 <= j < |lines| ensures IsBlank(lines[j]) <==> AllSpace(lines[j]) {
      BlankIff(lines[j]);
    }
  }

  ghost predicate PutAt(lines: seq<string>, lines': seq<string>, section: string, item: string, h: nat, next: nat,
                        at: nat) {
    SectionAt(lines, section, h, next) && TailAt(lines, h + 1, next, at)
    && lines' == lines[..at] + [item] + lines[at..]
  }

  /** `lines'` has the item in the section, below everything in it that is not all whitespace. */
  ghost predicate PutInSection(lines: seq<string>, lines': seq<string>, section: string, item: string) {
    exists h: nat, next: nat, at: nat :: PutAt(lines, lines', section, item, h, next, at)
  }

  /** `lines'` has the section at the end, behind an empty line, with the item in it. */
  ghost predicate PutAtEnd(lines: seq<string>, lines': seq<string>, section: string, item: string) {
    lines' == lines + (if lines != [] && lines[|lines| - 1] != "" then [""] else []) + ["## " + section, "", item]
  }

  lemma AppendPuts(lines: seq<string>, section: string, item: string)
    ensures var lines' := AppendLines(lines, SectionMarks(section), item);
            if LacksSection(lines, section) then PutAtEnd(lines, lines', section, item)
            else PutInSection(lines, lines', section, item)
  {
    var m := SectionMarks(section);
    SectionIsAt(lines, section);
    if HasSection(lines, m) {
      AppendPutsInside(lines, section, item);
    }
  }

  lemma AppendPutsInside(lines: seq<string>, section: string, item: string)
    requires HasSection(lines, SectionMarks(section))
    ensures PutInSection(lines, AppendLines(lines, SectionMarks(section), item), section, item)
  {
    var m := SectionMarks(section);
    var h, next, at := SectionStart(lines, m), SectionEnd(lines, m), InsertionPoint(lines, m);
    SectionIsAt(lines, section);
    TailIsAt(lines, h + 1, next);
    InsertedIs(lines, AppendLines(lines, m, item), section, item, h, next, at);
  }

  lemma InsertedIs(lines: seq<string>, lines': seq<string>, section: string, item: string, h: nat, next: nat, at: nat)
    requires SectionAt(lines, section, h, next) && TailAt(lines, h + 1, next, at)
    requires lines' == lines[..at] + [item] + lines[at..]
    ensures PutInSection(lines, lines', section, item)
  {
    assert PutAt(lines, lines', section, item, h, next, at);
  }

  /**
   * An append puts one item into the section: below its heading and every line of it that is not all
   * whitespace, above those at its end that are. A section that is missing is put at the end.
   */
  lemma AppendGoesTo(lines: seq<string>, section: string, line: string)
    ensures var lines' := AppendLines(lines, SectionMarks(section), Bullet(line));
            var item := if IsItem(line) then line else "- " + line;
            if LacksSection(lines, section) then PutAtEnd(lines, lines', section, item)
            else PutInSection(lines, lines', section, item)
  {
    BulletIs(line);
    AppendPuts(lines, section, Bullet(line));
  }

  // ----- Where a stamp and a replacement go

  ghost predicate FirstStampAt(lines: seq<string>, i: nat) {
    i < |lines| && IsStampLine(lines[i]) && forall j | 0 <= j < i :: !IsStampLine(lines[j])
  }

  ghost predicate FirstHeadingAt(lines: seq<string>, h: nat) {
    h < |lines| && IsHeading(lines[h]) && forall j | 0 <= j < h :: !IsHeading(lines[j])
  }

  ghost predicate Unstamped(lines: seq<string>) {
    forall l | l in lines :: !IsStampLine(l)
  }

  /** A stamp takes the place of the first one. */
  lemma StampReplacesFirst(lines: seq<string>, now: string, i: nat)
    requires FirstStampAt(lines, i)
    ensures Stamped(lines, now) == lines[..i] + ["Last updated: " + now] + lines[i + 1..]
  {
    StampLineReads(now);
    StampLinesAre(lines, IsStampLine, IsHeading, StampLine(now), i, FindFrom(lines, IsHeading, 0));
  }

  /** Without one to replace, the stamp goes below the first heading, behind an empty line. */
  lemma StampGoesBelowHeading(lines: seq<string>, now: string, h: nat)
    requires Unstamped(lines) && FirstHeadingAt(lines, h)
    ensures Stamped(lines, now) == lines[..h + 1] + ["", "Last updated: " + now] + lines[h + 1..]
  {
    StampLineReads(now);
    StampLinesAre(lines, IsStampLine, IsHeading, StampLine(now), |lines|, h);
  }

  /** In a document with neither, the stamp goes on top, with an empty line behind it. */
  lemma StampGoesOnTop(lines: seq<string>, now: string)
    requires Unstamped(lines) && forall l | l in lines :: !IsHeading(l)
    ensures Stamped(lines, now) == ["Last updated: " + now, ""] + lines
  {
    StampLineReads(now);
    StampLinesAre(lines, IsStampLine, IsHeading, StampLine(now), |lines|, |lines|);
  }

  lemma StampLinesAre(lines: seq<string>, isStamp: string -> bool, heading: string -> bool, stamp: string, i: nat,
                      h: nat)
    requires i <= |lines| && h <= |lines|
    requires (forall j | 0 <= j < i :: !isStamp(lines[j])) && (i < |lines| ==> isStamp(lines[i]))
    requires (forall j | 0 <= j < h :: !heading(lines[j])) && (h < |lines| ==> heading(lines[h]))
    ensures StampLines(lines, isStamp, heading, stamp)
         == if i < |lines| then lines[..i] + [stamp] + lines[i + 1..]
            else if h < |lines| then lines[..h + 1] + ["", stamp] + lines[h + 1..]
            else [stamp, ""] + lines
  {
    FindIs(lines, isStamp, 0, i);
    FindIs(lines, heading, 0, h);
  }

  lemma StampLineReads(now: string)
    ensures StampLine(now) == "Last updated: " + now
  {
    assert STAMP_PREFIX + " " == "Last updated: ";
  }

  /** A replacement puts the content, framed by empty lines, in place of all that stood below the heading. */
  lemma ReplaceGoesTo(lines: seq<string>, section: string, content: seq<string>, h: nat, next: nat)
    requires SectionAt(lines, section, h, next)
    ensures ReplaceLines(lines, SectionMarks(section), content)
         == lines[..h + 1] + [""] + content + (if next < |lines| then [""] else []) + lines[next..]
  {
    var m := SectionMarks(section);
    FindIs(lines, m.section, 0, h);
    FindIs(lines, m.heading, h + 1, next);
  }
}
