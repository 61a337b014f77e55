/**
 * The line edits behind the agent state document. Which lines are stamps, headings, blank, or
 * the heading of the wanted section is left to the caller, as predicates on single lines.
 */
module LineEditing {
  import opened DocumentLines

  /** The first index from `start` on whose line satisfies `p`, or the number of lines. */
  function FindFrom(lines: seq<string>, p: string -> bool, start: nat): (r: nat)
    requires start <= |lines|
    ensures start <= r <= |lines|
    ensures forall j | start <= j < r :: !p(lines[j])
    ensures r < |lines| ==> p(lines[r])
    decreases |lines| - start
  {
    if start == |lines| || p(lines[start]) then start else FindFrom(lines, p, start + 1)
  }

  lemma FindIs(lines: seq<string>, p: string -> bool, start: nat, r: nat)
    requires start <= r <= |lines|
    requires forall j | start <= j < r :: !p(lines[j])
    requires r < |lines| ==> p(lines[r])
    ensures FindFrom(lines, p, start) == r
  {
  }

  /** Where the trailing blank lines of `lines[lo..hi]` begin. */
  function BlankTail(lines: seq<string>, blank: string -> bool, lo: nat, hi: nat): (at: nat)
    requires lo <= hi <= |lines|
    ensures lo <= at <= hi
    ensures forall j | at <= j < hi :: blank(lines[j])
    ensures at > lo ==> !blank(lines[at - 1])
  {
    if hi > lo && blank(lines[hi - 1]) then BlankTail(lines, blank, lo, hi - 1) else hi
  }

  lemma BlankTailIs(lines: seq<string>, blank: string -> bool, lo: nat, hi: nat, at: nat)
    requires lo <= at <= hi <= |lines|
    requires forall j | at <= j < hi :: blank(lines[j])
    requires at > lo ==> !blank(lines[at - 1])
    ensures BlankTail(lines, blank, lo, hi) == at
  {
  }

  /** What the edits need to know about a section: its lines, its title line, blank lines. */
  datatype Marks = Marks(section: string -> bool, heading: string -> bool, blank: string -> bool, title: string)

  /** The title line is found again, and the empty line is no heading. */
  ghost predicate Findable(m: Marks) {
    m.section(m.title) && !m.section("") && !m.heading("")
  }

  function Separated(lines: seq<string>): seq<string> {
    if lines != [] && lines[|lines| - 1] != "" then lines + [""] else lines
  }

  function SectionStart(lines: seq<string>, m: Marks): nat {
    FindFrom(lines, m.section, 0)
  }

  predicate HasSection(lines: seq<string>, m: Marks) {
    SectionStart(lines, m) < |lines|
  }

  /** The heading of the section, or the one it gets when it is missing. */
  function HeadOf(lines: seq<string>, m: Marks): string {
    if HasSection(lines, m) then lines[SectionStart(lines, m)] else m.title
  }

  function SectionEnd(lines: seq<string>, m: Marks): (r: nat)
    requires HasSection(lines, m)
    ensures SectionStart(lines, m) < r <= |lines|
  {
    FindFrom(lines, m.heading, SectionStart(lines, m) + 1)
  }

  /** The lines below the section's heading, up to the next heading. */
  function SectionBody(lines: seq<string>, m: Marks): seq<string>
    requires HasSection(lines, m)
  {
    lines[SectionStart(lines, m) + 1..SectionEnd(lines, m)]
  }

  function InsertionPoint(lines: seq<string>, m: Marks): nat
    requires HasSection(lines, m)
  {
    BlankTail(lines, m.blank, SectionStart(lines, m) + 1, SectionEnd(lines, m))
  }

  // ----- Inserting one line

  function Insert(lines: seq<string>, at: nat, l: string): (r: seq<string>)
    requires at <= |lines|
    ensures |r| == |lines| + 1 && r[at] == l
    ensures forall j | 0 <= j < at :: r[j] == lines[j]
    ensures forall j | at < j < |r| :: r[j] == lines[j - 1]
  {
    lines[..at] + [l] + lines[at..]
  }

  lemma InsertsCommute(lines: seq<string>, i: nat, x: string, j: nat, y: string)
    requires i <= j <= |lines|
    ensures Insert(Insert(lines, i, x), j + 1, y) == Insert(Insert(lines, j, y), i, x)
  {
  }

  ghost predicate PlainLine(m: Marks, l: string) {
    !m.section(l) && !m.heading(l) && !m.blank(l)
  }

  /** A plain line put inside the section becomes its last nonblank line. */
  lemma InsertInside(lines: seq<string>, m: Marks, l: string)
    requires HasSection(lines, m) && PlainLine(m, l)
    ensures var lines' := Insert(lines, InsertionPoint(lines, m), l);
            && HasSection(lines', m) && SectionStart(lines', m) == SectionStart(lines, m)
            && InsertionPoint(lines', m) == InsertionPoint(lines, m) + 1
  {
    var h, next, at := SectionStart(lines, m), SectionEnd(lines, m), InsertionPoint(lines, m);
    var lines' := Insert(lines, at, l);
    FindIs(lines', m.section, 0, h);
    FindIs(lines', m.heading, h + 1, next + 1);
    BlankTailIs(lines', m.blank, h + 1, next + 1, at + 1);
  }

  /** A plain line put above the section moves it down. */
  lemma InsertAbove(lines: seq<string>, m: Marks, at: nat, l: string)
    requires HasSection(lines, m) && PlainLine(m, l) && at <= SectionStart(lines, m)
    ensures var lines' := Insert(lines, at, l);
            HasSection(lines', m) && InsertionPoint(lines', m) == InsertionPoint(lines, m) + 1
  {
    var h, next, lines' := SectionStart(lines, m), SectionEnd(lines, m), Insert(lines, at, l);
    assert SectionStart(lines', m) == h + 1 by {
      FindIs(lines', m.section, 0, h + 1);
    }
    assert SectionEnd(lines', m) == next + 1 by {
      FindIs(lines', m.heading, h + 2, next + 1);
    }
    BlankTailIs(lines', m.blank, h + 2, next + 1, InsertionPoint(lines, m) + 1);
  }

  /** A plain line put below the end of the section leaves it where it is. */
  lemma InsertBelow(lines: seq<string>, m: Marks, at: nat, l: string)
    requires HasSection(lines, m) && PlainLine(m, l) && SectionEnd(lines, m) < at <= |lines|
    ensures var lines' := Insert(lines, at, l);
            HasSection(lines', m) && InsertionPoint(lines', m) == InsertionPoint(lines, m)
  {
    var h, next, lines' := SectionStart(lines, m), SectionEnd(lines, m), Insert(lines, at, l);
    FindIs(lines', m.section, 0, h);
    FindIs(lines', m.heading, h + 1, next);
    BlankTailIs(lines', m.blank, h + 1, next, InsertionPoint(lines, m));
  }

  // ----- Appending a bullet

  function AppendLines(lines: seq<string>, m: Marks, bullet: string): seq<string> {
    if HasSection(lines, m) then Insert(lines, InsertionPoint(lines, m), bullet)
    else Separated(lines) + [m.title, ""] + [bullet]
  }

  function AppendAll(lines: seq<string>, m: Marks, bullets: seq<string>): seq<string>
    decreases |bullets|
  {
    if bullets == [] then lines
    else AppendAll(AppendLines(lines, m, bullets[0]), m, bullets[1..])
  }

  lemma InsertThen(lines: seq<string>, at: nat, bullets: seq<string>)
    requires at <= |lines| && bullets != []
    ensures var lines' := Insert(lines, at, bullets[0]);
            lines'[..at + 1] + bullets[1..] + lines'[at + 1..] == lines[..at] + bullets + lines[at..]
  {
    var lines' := Insert(lines, at, bullets[0]);
    assert lines'[..at + 1] == lines[..at] + [bullets[0]] && lines'[at + 1..] == lines[at..];
    assert bullets == [bullets[0]] + bullets[1..];
  }

  /** Successive appends keep their order and disturb no other line. */
  lemma {:induction false} AppendAllExisting(lines: seq<string>, m: Marks, bullets: seq<string>)
    requires HasSection(lines, m) && forall b | b in bullets :: PlainLine(m, b)
    ensures var at := InsertionPoint(lines, m);
            AppendAll(lines, m, bullets) == lines[..at] + bullets + lines[at..]
    decreases |bullets|
  {
    var at := InsertionPoint(lines, m);
    if bullets == [] {
      assert lines == lines[..at] + [] + lines[at..];
    } else {
      assert PlainLine(m, bullets[0]) && forall b | b in bullets[1..] :: b in bullets;
      InsertInside(lines, m, bullets[0]);
      AppendAllExisting(AppendLines(lines, m, bullets[0]), m, bullets[1..]);
      InsertThen(lines, at, bullets);
    }
  }

  lemma NewSection(lines: seq<string>, m: Marks, body: seq<string>)
    requires !HasSection(lines, m) && Findable(m) && FreeOfHeadings(m, body)
    ensures var lines' := Separated(lines) + [m.title, ""] + body;
            && HasSection(lines', m) && SectionStart(lines', m) == |Separated(lines)|
            && SectionEnd(lines', m) == |lines'| && SectionBody(lines', m) == [""] + body
  {
    var lines' := Separated(lines) + [m.title, ""] + body;
    var n := |Separated(lines)|;
    assert forall j | 0 <= j < n :: lines'[j] == Separated(lines)[j];
    FindIs(lines', m.section, 0, n);
    assert forall j | n + 2 <= j < |lines'| :: lines'[j] == body[j - n - 2];
    FindIs(lines', m.heading, n + 1, |lines'|);
  }

  lemma AppendNewPoint(lines: seq<string>, m: Marks, bullet: string)
    requires !HasSection(lines, m) && Findable(m) && PlainLine(m, bullet)
    ensures var lines' := Separated(lines) + [m.title, ""] + [bullet];
            HasSection(lines', m) && InsertionPoint(lines', m) == |lines'|
  {
    var lines' := Separated(lines) + [m.title, ""] + [bullet];
    NewSection(lines, m, [bullet]);
    BlankTailIs(lines', m.blank, SectionStart(lines', m) + 1, |lines'|, |lines'|);
  }

  /** Appending to a missing section creates it, with the bullets in order. */
  lemma AppendAllNew(lines: seq<string>, m: Marks, bullets: seq<string>)
    requires !HasSection(lines, m) && Findable(m) && bullets != []
    requires forall b | b in bullets :: PlainLine(m, b)
    ensures AppendAll(lines, m, bullets) == Separated(lines) + [m.title, ""] + bullets
  {
    assert PlainLine(m, bullets[0]) && forall b | b in bullets[1..] :: b in bullets;
    AppendNewPoint(lines, m, bullets[0]);
    var head := Separated(lines) + [m.title, ""];
    AppendAllExisting(head + [bullets[0]], m, bullets[1..]);
    AddsAllLast(head, bullets);
  }

  lemma AddsAllLast(head: seq<string>, bullets: seq<string>)
    requires bullets != []
    ensures var lines := head + [bullets[0]];
            lines[..|lines|] + bullets[1..] + lines[|lines|..] == head + bullets
  {
  }

  /** Appends to two sections that both exist commute. */
  lemma AppendsCommute(lines: seq<string>, m1: Marks, b1: string, m2: Marks, b2: string)
    requires HasSection(lines, m1) && HasSection(lines, m2)
    requires SectionEnd(lines, m1) <= SectionStart(lines, m2)
    requires PlainLine(m1, b1) && PlainLine(m2, b1) && PlainLine(m1, b2) && PlainLine(m2, b2)
    ensures AppendLines(AppendLines(lines, m1, b1), m2, b2) == AppendLines(AppendLines(lines, m2, b2), m1, b1)
  {
    var at1, at2 := InsertionPoint(lines, m1), InsertionPoint(lines, m2);
    var first, second := Insert(lines, at1, b1), Insert(lines, at2, b2);
    assert AppendLines(first, m2, b2) == Insert(first, at2 + 1, b2) by {
      InsertAbove(lines, m2, at1, b1);
    }
    assert AppendLines(second, m1, b1) == Insert(second, at1, b1) by {
      InsertBelow(lines, m1, at2, b2);
    }
    InsertsCommute(lines, at1, b1, at2, b2);
  }

  // ----- Replacing a section

  function ReplaceLines(lines: seq<string>, m: Marks, content: seq<string>): seq<string> {
    if HasSection(lines, m) then
      var next := SectionEnd(lines, m);
      lines[..SectionStart(lines, m) + 1] + [""] + content
      + (if next < |lines| then [""] else []) + lines[next..]
    else
      Separated(lines) + [m.title, ""] + content
  }

  ghost predicate FreeOfHeadings(m: Marks, content: seq<string>) {
    forall l | l in content :: !m.section(l) && !m.heading(l)
  }

  /** The section of a document put together from its head, its body and what follows. */
  lemma Assembled(head: seq<string>, body: seq<string>, tail: seq<string>, m: Marks)
    requires head != [] && m.section(head[|head| - 1])
    requires forall j | 0 <= j < |head| - 1 :: !m.section(head[j])
    requires forall l | l in body :: !m.heading(l)
    requires tail != [] ==> m.heading(tail[0])
    ensures var lines := head + body + tail;
            && HasSection(lines, m) && SectionStart(lines, m) == |head| - 1
            && SectionEnd(lines, m) == |head| + |body| && SectionBody(lines, m) == body
            && lines[..|head|] == head && lines[|head| + |body|..] == tail
  {
    var lines := head + body + tail;
    FindIs(lines, m.section, 0, |head| - 1);
    assert forall j | |head| <= j < |head| + |body| :: lines[j] == body[j - |head|];
    FindIs(lines, m.heading, |head|, |head| + |body|);
  }

  function Framed(content: seq<string>, tail: seq<string>): seq<string> {
    [""] + content + if tail != [] then [""] else []
  }

  /**
   * Replacing an existing section: the lines up to its heading and from the next heading on
   * stay, and between them stands the content, set off by blank lines.
   */
  lemma ReplaceExisting(lines: seq<string>, m: Marks, content: seq<string>)
    requires HasSection(lines, m) && Findable(m) && FreeOfHeadings(m, content)
    ensures var lines', next := ReplaceLines(lines, m, content), SectionEnd(lines, m);
            && HasSection(lines', m) && SectionStart(lines', m) == SectionStart(lines, m)
            && SectionBody(lines', m) == Framed(content, lines[next..])
            && lines'[..SectionStart(lines', m) + 1] == lines[..SectionStart(lines, m) + 1]
            && lines'[SectionEnd(lines', m)..] == lines[next..]
  {
    var h, next := SectionStart(lines, m), SectionEnd(lines, m);
    var head, body, tail := lines[..h + 1], Framed(content, lines[next..]), lines[next..];
    assert ReplaceLines(lines, m, content) == head + body + tail;
    Assembled(head, body, tail, m);
  }

  /** Replacing a missing section: the old document stays, and the section follows it. */
  lemma ReplaceMissing(lines: seq<string>, m: Marks, content: seq<string>)
    requires !HasSection(lines, m) && Findable(m) && FreeOfHeadings(m, content)
    ensures var lines' := ReplaceLines(lines, m, content);
            && HasSection(lines', m) && lines'[..SectionStart(lines', m)] == Separated(lines)
            && SectionBody(lines', m) == Framed(content, []) && SectionEnd(lines', m) == |lines'|
  {
    NewSection(lines, m, content);
    assert Framed(content, []) == [""] + content;
  }

  /**
   * The section of `lines'` reads as `content` between blank lines, and the lines before it and
   * after it are those of `lines`; a section that was missing follows the old document.
   */
  ghost predicate ReadsBack(lines: seq<string>, m: Marks, content: seq<string>, lines': seq<string>) {
    && HasSection(lines', m)
    && var (h', next') := (SectionStart(lines', m), SectionEnd(lines', m));
    && SectionBody(lines', m) == Framed(content, lines'[next'..])
    && if HasSection(lines, m) then
         && lines'[..h' + 1] == lines[..SectionStart(lines, m) + 1]
         && lines'[next'..] == lines[SectionEnd(lines, m)..]
       else
         lines'[..h'] == Separated(lines) && lines'[h'] == m.title && lines'[next'..] == []
  }

  lemma ReplaceReadsBack(lines: seq<string>, m: Marks, content: seq<string>)
    requires Findable(m) && FreeOfHeadings(m, content)
    ensures ReadsBack(lines, m, content, ReplaceLines(lines, m, content))
  {
    if HasSection(lines, m) {
      ReplaceExisting(lines, m, content);
    } else {
      ReplaceMissing(lines, m, content);
    }
  }

  lemma ReplaceAgain(lines: seq<string>, m: Marks, content: seq<string>)
    requires HasSection(lines, m) && SectionBody(lines, m) == Framed(content, lines[SectionEnd(lines, m)..])
    ensures ReplaceLines(lines, m, content) == lines
  {
    var h, next := SectionStart(lines, m), SectionEnd(lines, m);
    assert lines == lines[..h + 1] + lines[h + 1..next] + lines[next..];
  }

  lemma ReplaceTwice(lines: seq<string>, m: Marks, content: seq<string>)
    requires Findable(m) && FreeOfHeadings(m, content)
    ensures ReplaceLines(ReplaceLines(lines, m, content), m, content) == ReplaceLines(lines, m, content)
  {
    var once := ReplaceLines(lines, m, content);
    if HasSection(lines, m) {
      ReplaceExisting(lines, m, content);
    } else {
      ReplaceMissing(lines, m, content);
      assert once[|once|..] == [];
    }
    ReplaceAgain(once, m, content);
  }

  /** With a heading in its body, the section of an assembled document ends inside the body. */
  lemma EndsInside(head: seq<string>, body: seq<string>, tail: seq<string>, m: Marks, k: nat)
    requires head != [] && m.section(head[|head| - 1])
    requires forall j | 0 <= j < |head| - 1 :: !m.section(head[j])
    requires k < |body| && m.heading(body[k])
    ensures var lines := head + body + tail;
            && HasSection(lines, m) && SectionStart(lines, m) == |head| - 1
            && SectionEnd(lines, m) <= |head| + k && lines[..|head|] == head
  {
    var lines := head + body + tail;
    FindIs(lines, m.section, 0, |head| - 1);
    assert lines[|head| + k] == body[k];
  }

  lemma GrowsInside(head: seq<string>, content: seq<string>, tail: seq<string>, m: Marks)
    requires head != [] && m.section(head[|head| - 1])
    requires forall j | 0 <= j < |head| - 1 :: !m.section(head[j])
    requires exists l :: l in content && m.heading(l)
    ensures var lines := head + Framed(content, tail) + tail;
            |ReplaceLines(lines, m, content)| > |lines|
  {
    var l :| l in content && m.heading(l);
    var k :| 0 <= k < |content| && content[k] == l;
    assert Framed(content, tail)[k + 1] == content[k];
    EndsInside(head, Framed(content, tail), tail, m, k + 1);
  }

  lemma GrowsExisting(lines: seq<string>, m: Marks, content: seq<string>)
    requires HasSection(lines, m)
    requires exists l :: l in content && m.heading(l)
    ensures |ReplaceLines(ReplaceLines(lines, m, content), m, content)| > |ReplaceLines(lines, m, content)|
  {
    var head, tail := lines[..SectionStart(lines, m) + 1], lines[SectionEnd(lines, m)..];
    assert ReplaceLines(lines, m, content) == head + Framed(content, tail) + tail;
    GrowsInside(head, content, tail, m);
  }

  lemma GrowsMissing(lines: seq<string>, m: Marks, content: seq<string>)
    requires !HasSection(lines, m) && m.section(m.title) && !m.section("")
    requires exists l :: l in content && m.heading(l)
    ensures |ReplaceLines(ReplaceLines(lines, m, content), m, content)| > |ReplaceLines(lines, m, content)|
  {
    var head := Separated(lines) + [m.title];
    assert forall j | 0 <= j < |head| - 1 :: head[j] == Separated(lines)[j];
    GrowsInside(head, content, [], m);
    assert Separated(lines) + [m.title, ""] + content == head + Framed(content, []) + [];
  }

  /** What holds of the marks of every section: its lines are headings, and either its title is found or nothing is. */
  ghost predicate WellMarked(m: Marks) {
    && (m.section(m.title) || forall l :: !m.section(l))
    && (forall l :: m.section(l) ==> m.heading(l))
    && !m.heading("")
  }

  /** Replacing twice is replacing once exactly when the title is found and the content holds no heading. */
  lemma ReplaceTwiceIff(lines: seq<string>, m: Marks, content: seq<string>)
    requires WellMarked(m)
    ensures ReplaceLines(ReplaceLines(lines, m, content), m, content) == ReplaceLines(lines, m, content)
            <==> m.section(m.title) && forall l | l in content :: !m.heading(l)
  {
    if !m.section(m.title) {
      var once := ReplaceLines(lines, m, content);
      assert !HasSection(lines, m) && !HasSection(once, m);
      assert |Separated(once) + [m.title, ""] + content| > |once|;
    } else if forall l | l in content :: !m.heading(l) {
      ReplaceTwice(lines, m, content);
    } else if HasSection(lines, m) {
      GrowsExisting(lines, m, content);
    } else {
      GrowsMissing(lines, m, content);
    }
  }

  lemma ReplaceIsClean(lines: seq<string>, m: Marks, content: seq<string>)
    requires Clean(lines) && CleanLine(m.title) && Clean(content)
    ensures Clean(ReplaceLines(lines, m, content))
  {
    if HasSection(lines, m) {
      var head, tail := lines[..SectionStart(lines, m) + 1], lines[SectionEnd(lines, m)..];
      assert forall l | l in head || l in tail :: l in lines;
    }
  }

  // ----- Stamping

  function StampLines(lines: seq<string>, isStamp: string -> bool, heading: string -> bool, stamp: string)
    : seq<string>
  {
    var i, h := FindFrom(lines, isStamp, 0), FindFrom(lines, heading, 0);
    if i < |lines| then lines[i := stamp]
    else if h < |lines| then lines[..h + 1] + ["", stamp] + lines[h + 1..]
    else [stamp, ""] + lines
  }

  /** Where the stamp stands afterwards. */
  function StampIndex(lines: seq<string>, isStamp: string -> bool, heading: string -> bool): nat {
    var i, h := FindFrom(lines, isStamp, 0), FindFrom(lines, heading, 0);
    if i < |lines| then i else if h < |lines| then h + 2 else 0
  }

  lemma FirstStamp(lines: seq<string>, isStamp: string -> bool, heading: string -> bool, stamp: string)
    requires isStamp(stamp) && !isStamp("")
    ensures var lines', i := StampLines(lines, isStamp, heading, stamp), StampIndex(lines, isStamp, heading);
            i < |lines'| && lines'[i] == stamp && FindFrom(lines', isStamp, 0) == i
  {
    var lines' := StampLines(lines, isStamp, heading, stamp);
    FindIs(lines', isStamp, 0, StampIndex(lines, isStamp, heading));
  }

  /** Two stamps of the same document differ in one line only. */
  lemma RestampLine(lines: seq<string>, isStamp: string -> bool, heading: string -> bool, s1: string, s2: string)
    ensures var once, i := StampLines(lines, isStamp, heading, s1), StampIndex(lines, isStamp, heading);
            i < |once| && once[i] == s1 && once[i := s2] == StampLines(lines, isStamp, heading, s2)
  {
  }

  /** The later stamp replaces the earlier one and moves nothing. */
  lemma StampTwice(lines: seq<string>, isStamp: string -> bool, heading: string -> bool, s1: string, s2: string)
    requires isStamp(s1) && isStamp(s2) && !isStamp("")
    ensures StampLines(StampLines(lines, isStamp, heading, s1), isStamp, heading, s2)
            == StampLines(lines, isStamp, heading, s2)
  {
    FirstStamp(lines, isStamp, heading, s1);
    RestampLine(lines, isStamp, heading, s1, s2);
  }

  /** Dropping a trailing blank line and stamping again commute. */
  lemma StampAfterDrop(lines: seq<string>, isStamp: string -> bool, heading: string -> bool, s1: string, s2: string)
    requires isStamp(s1) && !isStamp("") && s2 != ""
    ensures StampLines(Kept(StampLines(lines, isStamp, heading, s1)), isStamp, heading, s2)
            == Kept(StampLines(lines, isStamp, heading, s2))
  {
    FirstStamp(lines, isStamp, heading, s1);
    RestampLine(lines, isStamp, heading, s1, s2);
    var once, i := StampLines(lines, isStamp, heading, s1), StampIndex(lines, isStamp, heading);
    assert i < |Kept(once)|;
    FindIs(Kept(once), isStamp, 0, i);
    assert Kept(once)[i := s2] == Kept(once[i := s2]);
  }

  /** A stamped document ends in two blank lines exactly when it did before, or was one blank line. */
  lemma StampEndsTwoBlankIff(lines: seq<string>, isStamp: string -> bool, heading: string -> bool, stamp: string)
    requires isStamp(stamp) && !isStamp("") && !heading("")
    ensures EndsTwoBlank(StampLines(lines, isStamp, heading, stamp)) <==> EndsTwoBlank(lines) || lines == [""]
  {
    var i, h := FindFrom(lines, isStamp, 0), FindFrom(lines, heading, 0);
    var lines' := StampLines(lines, isStamp, heading, stamp);
    if i < |lines| {
      assert forall k | 0 <= k < |lines| && k != i :: lines'[k] == lines[k];
    } else if h < |lines| {
      assert forall k | h < k < |lines| :: lines'[k + 2] == lines[k];
    } else {
      assert forall k | 0 <= k < |lines| :: lines'[k + 2] == lines[k];
    }
  }

  /** Stamping keeps every line that is not a stamp. */
  lemma StampKeeps(lines: seq<string>, isStamp: string -> bool, heading: string -> bool, stamp: string, l: string)
    requires l in lines && !isStamp(l)
    ensures l in StampLines(lines, isStamp, heading, stamp)
  {
    var k :| 0 <= k < |lines| && lines[k] == l;
    var i, h := FindFrom(lines, isStamp, 0), FindFrom(lines, heading, 0);
    var lines' := StampLines(lines, isStamp, heading, stamp);
    if i < |lines| {
      assert lines'[k] == l;
    } else if h < |lines| && k <= h {
      assert lines'[k] == l;
    } else {
      assert lines'[k + 2] == l;
    }
  }

  lemma StampPresent(lines: seq<string>, isStamp: string -> bool, heading: string -> bool, stamp: string)
    ensures stamp in StampLines(lines, isStamp, heading, stamp)
  {
    RestampLine(lines, isStamp, heading, stamp, stamp);
    var lines' := StampLines(lines, isStamp, heading, stamp);
    assert lines'[StampIndex(lines, isStamp, heading)] == stamp;
  }

  lemma StampMembers(lines: seq<string>, isStamp: string -> bool, heading: string -> bool, stamp: string)
    ensures forall l | l in StampLines(lines, isStamp, heading, stamp) :: l in lines || l == "" || l == stamp
  {
  }

  lemma AppendMembers(lines: seq<string>, m: Marks, bullet: string)
    ensures forall l | l in AppendLines(lines, m, bullet) :: l in lines || l == "" || l == m.title || l == bullet
  {
    if HasSection(lines, m) {
      var lines' := AppendLines(lines, m, bullet);
      forall j | 0 <= j < |lines'| ensures lines'[j] in lines || lines'[j] == bullet {
        var at := InsertionPoint(lines, m);
        assert j < at ==> lines'[j] == lines[j];
        assert j > at ==> lines'[j] == lines[j - 1];
      }
    }
  }

  /** Appending keeps every line. */
  lemma AppendKeeps(lines: seq<string>, m: Marks, bullet: string)
    ensures forall l | l in lines || l == bullet :: l in AppendLines(lines, m, bullet)
  {
    var lines' := AppendLines(lines, m, bullet);
    if HasSection(lines, m) {
      var at := InsertionPoint(lines, m);
      assert lines'[at] == bullet;
      forall k | 0 <= k < |lines| ensures lines[k] in lines' {
        assert lines'[if k < at then k else k + 1] == lines[k];
      }
    }
  }

  lemma AppendIsClean(lines: seq<string>, m: Marks, bullet: string)
    requires Clean(lines) && CleanLine(m.title) && CleanLine(bullet)
    ensures Clean(AppendLines(lines, m, bullet))
  {
    AppendMembers(lines, m, bullet);
  }

  // ----- The loops that perform the edits

  method PlaceStamp(lines: seq<string>, isStamp: string -> bool, heading: string -> bool, stamp: string)
    returns (out: seq<string>)
    ensures out == StampLines(lines, isStamp, heading, stamp)
  {
    out := [];
    var replaced := false;
    ghost var first := FindFrom(lines, isStamp, 0);
    for k := 0 to |lines|
      invariant replaced <==> first < k
      invariant out == if first < k then lines[..k][first := stamp] else lines[..k]
    {
      if !replaced && isStamp(lines[k]) {
        out := out + [stamp];
        replaced := true;
      } else {
        out := out + [lines[k]];
      }
    }
    if !replaced {
      out := InsertStamp(lines, heading, stamp);
    }
  }

  method InsertStamp(lines: seq<string>, heading: string -> bool, stamp: string) returns (out: seq<string>)
    ensures var h := FindFrom(lines, heading, 0);
            out == if h < |lines| then lines[..h + 1] + ["", stamp] + lines[h + 1..] else [stamp, ""] + lines
  {
    var inserted := false;
    ghost var h := FindFrom(lines, heading, 0);
    out := [];
    for k := 0 to |lines|
      invariant inserted <==> h < k
      invariant out == if h < k then lines[..h + 1] + ["", stamp] + lines[h + 1..k] else lines[..k]
    {
      out := out + [lines[k]];
      if !inserted && heading(lines[k]) {
        out := out + ["", stamp];
        inserted := true;
      }
    }
    if !inserted {
      out := [stamp, ""] + out;
    }
  }

  method SeparateEnd(lines: seq<string>) returns (out: seq<string>)
    ensures out == Separated(lines)
  {
    out := lines;
    if out != [] && out[|out| - 1] != "" {
      out := out + [""];
    }
  }

  method PushAll(lines: seq<string>, more: seq<string>) returns (out: seq<string>)
    ensures out == lines + more
  {
    out := lines;
    for k := 0 to |more|
      invariant out == lines + more[..k]
    {
      out := out + [more[k]];
    }
  }

  method PlaceBullet(lines: seq<string>, m: Marks, bullet: string) returns (out: seq<string>)
    ensures out == AppendLines(lines, m, bullet)
  {
    var h := FindFrom(lines, m.section, 0);
    if h == |lines| {
      out := SeparateEnd(lines);
      out := out + [m.title, ""] + [bullet];
      return;
    }
    var insertAt := WalkBack(lines, m, h);
    out := lines[..insertAt] + [bullet];
    out := PushAll(out, lines[insertAt..]);
  }

  /** Walks back over the blank lines at the end of the section. */
  method WalkBack(lines: seq<string>, m: Marks, h: nat) returns (insertAt: nat)
    requires HasSection(lines, m) && h == SectionStart(lines, m)
    ensures insertAt == InsertionPoint(lines, m)
  {
    var next := FindFrom(lines, m.heading, h + 1);
    insertAt := next;
    while insertAt > h + 1 && m.blank(lines[insertAt - 1])
      invariant h + 1 <= insertAt <= next
      invariant BlankTail(lines, m.blank, h + 1, insertAt) == BlankTail(lines, m.blank, h + 1, next)
    {
      insertAt := insertAt - 1;
    }
  }

  method PlaceContent(lines: seq<string>, m: Marks, content: seq<string>) returns (out: seq<string>)
    ensures out == ReplaceLines(lines, m, content)
  {
    var h := FindFrom(lines, m.section, 0);
    if h == |lines| {
      out := SeparateEnd(lines);
      out := out + [m.title, ""] + content;
      return;
    }
    var next := FindFrom(lines, m.heading, h + 1);
    out := lines[..h + 1] + [""];
    out := PushAll(out, content);
    if next < |lines| {
      out := out + [""];
    }
    out := PushAll(out, lines[next..]);
  }
}
