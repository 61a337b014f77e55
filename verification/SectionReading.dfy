/**
 * Reading a section back after it was replaced and the document stamped: exactly when the stamp goes
 * somewhere else. Blank lines around the section's text are not part of it.
 */
module SectionReading {
  import opened Sequences
  import opened DocumentLines
  import opened LineEditing

  function TrimFront(lines: seq<string>): seq<string> {
    if lines != [] && lines[0] == "" then TrimFront(lines[1..]) else lines
  }

  function TrimBack(lines: seq<string>): seq<string> {
    if EndsBlank(lines) then TrimBack(lines[..|lines| - 1]) else lines
  }

  /** The lines without the blank ones at either end. */
  function Core(lines: seq<string>): seq<string> {
    TrimBack(TrimFront(lines))
  }

  /** The lines that are not blank; only a means to tell cores apart. */
  function Inked(lines: seq<string>): seq<string> {
    if lines == [] then []
    else Inked(lines[..|lines| - 1]) + if lines[|lines| - 1] == "" then [] else [lines[|lines| - 1]]
  }

  lemma {:induction false} InkedJoin(a: seq<string>, c: seq<string>)
    ensures Inked(a + c) == Inked(a) + Inked(c)
    decreases |c|
  {
    if c == [] {
      assert a + c == a;
    } else {
      assert (a + c)[..|a + c| - 1] == a + c[..|c| - 1];
      InkedJoin(a, c[..|c| - 1]);
    }
  }

  lemma InkedOne(l: string)
    ensures Inked([l]) == if l == "" then [] else [l]
  {
    assert [l][..0] == [];
  }

  lemma {:induction false} TrimFrontInked(lines: seq<string>)
    ensures Inked(TrimFront(lines)) == Inked(lines)
  {
    if lines != [] && lines[0] == "" {
      TrimFrontInked(lines[1..]);
      assert lines == [lines[0]] + lines[1..];
      InkedJoin([lines[0]], lines[1..]);
      InkedOne("");
    }
  }

  lemma {:induction false} TrimBackInked(lines: seq<string>)
    ensures Inked(TrimBack(lines)) == Inked(lines)
  {
    if EndsBlank(lines) {
      TrimBackInked(lines[..|lines| - 1]);
    }
  }

  lemma CoreInked(lines: seq<string>)
    ensures Inked(Core(lines)) == Inked(lines)
  {
    TrimFrontInked(lines);
    TrimBackInked(TrimFront(lines));
  }

  lemma CoreOfFramed(lines: seq<string>)
    ensures Core([""] + lines) == Core(lines)
  {
    assert ([""] + lines)[1..] == lines;
  }

  lemma {:induction false} CoreWithBlank(lines: seq<string>)
    ensures Core(lines + [""]) == Core(lines)
  {
    if lines == [] {
      assert [] + [""] == [""] && [""][1..] == [];
    } else if lines[0] == "" {
      assert (lines + [""])[1..] == lines[1..] + [""];
      CoreWithBlank(lines[1..]);
    } else {
      assert (lines + [""])[..|lines|] == lines;
    }
  }

  lemma CoreOfKept(lines: seq<string>, kept: seq<string>)
    requires lines == kept || lines == kept + [""]
    ensures Core(lines) == Core(kept)
  {
    CoreWithBlank(kept);
  }

  /** Another nonblank line shows. */
  lemma StampInsideShows(body: seq<string>, stamp: string)
    requires stamp != ""
    ensures Core(["", stamp] + body) != Core(body)
  {
    CoreInked(["", stamp] + body);
    CoreInked(body);
    InkedJoin(["", stamp], body);
    assert ["", stamp][..1] == [""] && [""][..0] == [];
    assert Inked(["", stamp]) == [stamp];
  }

  /** Replacing a nonblank line by another one shows. */
  lemma StampOverShows(body: seq<string>, k: nat, stamp: string)
    requires k < |body| && body[k] != "" && stamp != ""
    ensures Core(body[k := stamp]) == Core(body) <==> body[k] == stamp
  {
    var a, c := body[..k], body[k + 1..];
    assert body == a + [body[k]] + c && body[k := stamp] == a + [stamp] + c;
    CoreInked(body);
    CoreInked(body[k := stamp]);
    InkedThree(a, body[k], c);
    InkedThree(a, stamp, c);
    if body[k] != stamp {
      assert (Inked(a) + [body[k]] + Inked(c))[|Inked(a)|] != (Inked(a) + [stamp] + Inked(c))[|Inked(a)|];
    } else {
      assert body[k := stamp] == body;
    }
  }

  lemma InkedThree(a: seq<string>, l: string, c: seq<string>)
    requires l != ""
    ensures Inked(a + [l] + c) == Inked(a) + [l] + Inked(c)
  {
    InkedJoin(a + [l], c);
    InkedJoin(a, [l]);
    InkedOne(l);
  }

  lemma {:induction false} CoreMembers(lines: seq<string>, l: string)
    requires l in lines && l != ""
    ensures l in Core(lines)
  {
    if lines[0] == "" {
      assert l in lines[1..];
      CoreMembers(lines[1..], l);
    } else {
      BackMembers(lines, l);
    }
  }

  lemma {:induction false} BackMembers(lines: seq<string>, l: string)
    requires l in lines && l != ""
    ensures l in TrimBack(lines)
  {
    if EndsBlank(lines) {
      assert lines == lines[..|lines| - 1] + [""];
      BackMembers(lines[..|lines| - 1], l);
    }
  }

  lemma {:induction false} CoreIsPart(lines: seq<string>)
    ensures forall l | l in Core(lines) :: l in lines
  {
    if lines != [] && lines[0] == "" {
      CoreIsPart(lines[1..]);
      assert lines == [lines[0]] + lines[1..];
    } else {
      BackIsPart(lines);
    }
  }

  lemma {:induction false} BackIsPart(lines: seq<string>)
    ensures forall l | l in TrimBack(lines) :: l in lines
  {
    if EndsBlank(lines) {
      BackIsPart(lines[..|lines| - 1]);
    }
  }

  // ----- Reading a section

  /** The section reads as the content, blank lines around it apart. */
  predicate ReadsAs(lines: seq<string>, m: Marks, content: seq<string>) {
    HasSection(lines, m) && Core(SectionBody(lines, m)) == Core(content)
  }

  function Put(above: seq<string>, title: string, body: seq<string>, tail: seq<string>): seq<string> {
    above + [title] + body + tail
  }

  /** A document in parts: above the section, its heading, its body, and from the next heading on. */
  ghost predicate Parts(m: Marks, above: seq<string>, title: string, body: seq<string>, tail: seq<string>) {
    && m.section(title)
    && (forall j | 0 <= j < |above| :: !m.section(above[j]))
    && (forall j | 0 <= j < |body| :: !m.heading(body[j]))
    && (tail != [] ==> m.heading(tail[0]))
  }

  lemma PartsRead(m: Marks, above: seq<string>, title: string, body: seq<string>, tail: seq<string>,
                  content: seq<string>)
    requires Parts(m, above, title, body, tail)
    ensures ReadsAs(Put(above, title, body, tail), m, content) <==> Core(body) == Core(content)
  {
    assert forall j | 0 <= j < |above| :: (above + [title])[j] == above[j];
    Assembled(above + [title], body, tail, m);
  }

  /** Dropping a trailing blank line leaves what the section reads as. */
  lemma KeptParts(m: Marks, above: seq<string>, title: string, body: seq<string>, tail: seq<string>)
    returns (body': seq<string>, tail': seq<string>)
    requires Parts(m, above, title, body, tail) && !m.heading("") && !m.section("")
    ensures Kept(Put(above, title, body, tail)) == Put(above, title, body', tail')
    ensures Parts(m, above, title, body', tail')
    ensures body == body' || body == body' + [""]
    ensures tail == tail' || tail == tail' + [""]
  {
    var lines := Put(above, title, body, tail);
    body', tail' := body, tail;
    if |lines| >= 2 && EndsBlank(lines) {
      if tail != [] {
        tail' := tail[..|tail| - 1];
        assert tail[|tail| - 1] == "" && |tail| > 1;
        assert lines[..|lines| - 1] == Put(above, title, body, tail');
      } else {
        assert lines == above + [title] + body;
        assert body != [];
        body' := body[..|body| - 1];
        assert lines[..|lines| - 1] == Put(above, title, body', tail);
      }
    }
  }

  // ----- Where the stamp goes

  predicate Has(lines: seq<string>, p: string -> bool) {
    FindFrom(lines, p, 0) < |lines|
  }

  lemma FindInJoin(a: seq<string>, c: seq<string>, p: string -> bool)
    ensures FindFrom(a + c, p, 0) == if Has(a, p) then FindFrom(a, p, 0) else |a| + FindFrom(c, p, 0)
  {
    FindIs(a + c, p, 0, if Has(a, p) then FindFrom(a, p, 0) else |a| + FindFrom(c, p, 0));
  }

  ghost predicate StampMarks(m: Marks, isStamp: string -> bool, stamp: string) {
    && (forall l :: isStamp(l) ==> !m.heading(l))
    && (forall l :: m.section(l) ==> m.heading(l))
    && isStamp(stamp) && !isStamp("") && !m.heading("")
  }

  /** The stamp leaves the body alone: it goes above it, below it, or over an equal line. */
  predicate StampSpares(above: seq<string>, body: seq<string>, below: seq<string>, heading: string -> bool,
                        isStamp: string -> bool, stamp: string) {
    || Has(above, isStamp)
    || (if Has(body, isStamp) then body[FindFrom(body, isStamp, 0)] == stamp
        else Has(below, isStamp) || Has(above, heading))
  }

  lemma FirstStampIn(above: seq<string>, title: string, body: seq<string>, tail: seq<string>, isStamp: string -> bool)
    requires !isStamp(title)
    ensures FindFrom(Put(above, title, body, tail), isStamp, 0)
         == if Has(above, isStamp) then FindFrom(above, isStamp, 0)
            else if Has(body, isStamp) then |above| + 1 + FindFrom(body, isStamp, 0)
            else |above| + 1 + |body| + FindFrom(tail, isStamp, 0)
  {
    FindInJoin(above + [title] + body, tail, isStamp);
    FindInJoin(above + [title], body, isStamp);
    FindInJoin(above, [title], isStamp);
  }

  lemma FirstHeadingIn(above: seq<string>, title: string, body: seq<string>, tail: seq<string>,
                       heading: string -> bool)
    requires heading(title)
    ensures FindFrom(Put(above, title, body, tail), heading, 0) == FindFrom(above, heading, 0)
  {
    FindInJoin(above + [title] + body, tail, heading);
    FindInJoin(above + [title], body, heading);
    FindInJoin(above, [title], heading);
  }

  lemma InAbove(above: seq<string>, title: string, body: seq<string>, tail: seq<string>, i: nat, l: string)
    requires i < |above|
    ensures Put(above, title, body, tail)[i := l] == Put(above[i := l], title, body, tail)
    ensures var lines := Put(above, title, body, tail);
            lines[..i + 1] + ["", l] + lines[i + 1..]
            == Put(above[..i + 1] + ["", l] + above[i + 1..], title, body, tail)
  {
  }

  lemma InBody(above: seq<string>, title: string, body: seq<string>, tail: seq<string>, k: nat, l: string)
    requires k < |body|
    ensures Put(above, title, body, tail)[|above| + 1 + k := l] == Put(above, title, body[k := l], tail)
  {
  }

  lemma InTail(above: seq<string>, title: string, body: seq<string>, tail: seq<string>, k: nat, l: string)
    requires k < |tail|
    ensures Put(above, title, body, tail)[|above| + 1 + |body| + k := l] == Put(above, title, body, tail[k := l])
  {
  }

  lemma BelowTitle(above: seq<string>, title: string, body: seq<string>, tail: seq<string>, l: string)
    ensures var lines, n := Put(above, title, body, tail), |above| + 1;
            lines[..n] + ["", l] + lines[n..] == Put(above, title, ["", l] + body, tail)
  {
  }

  lemma StampedParts(m: Marks, above: seq<string>, title: string, body: seq<string>, tail: seq<string>,
                     isStamp: string -> bool, stamp: string)
    returns (above': seq<string>, body': seq<string>, tail': seq<string>)
    requires Parts(m, above, title, body, tail) && StampMarks(m, isStamp, stamp)
    ensures StampLines(Put(above, title, body, tail), isStamp, m.heading, stamp) == Put(above', title, body', tail')
    ensures Parts(m, above', title, body', tail')
    ensures Core(body') == Core(body) <==> StampSpares(above, body, tail, m.heading, isStamp, stamp)
  {
    above', body', tail' := above, body, tail;
    FirstStampIn(above, title, body, tail, isStamp);
    if Has(above, isStamp) {
      var i := FindFrom(above, isStamp, 0);
      above' := above[i := stamp];
      InAbove(above, title, body, tail, i, stamp);
    } else if Has(body, isStamp) {
      var k := FindFrom(body, isStamp, 0);
      body' := body[k := stamp];
      InBody(above, title, body, tail, k, stamp);
      StampOverShows(body, k, stamp);
    } else if Has(tail, isStamp) {
      var k := FindFrom(tail, isStamp, 0);
      tail' := tail[k := stamp];
      InTail(above, title, body, tail, k, stamp);
    } else {
      above', body' := StampBelowHeading(m, above, title, body, tail, isStamp, stamp);
    }
  }

  lemma StampBelowHeading(m: Marks, above: seq<string>, title: string, body: seq<string>, tail: seq<string>,
                          isStamp: string -> bool, stamp: string)
    returns (above': seq<string>, body': seq<string>)
    requires Parts(m, above, title, body, tail) && StampMarks(m, isStamp, stamp)
    requires !Has(above, isStamp) && !Has(body, isStamp) && !Has(tail, isStamp)
    ensures StampLines(Put(above, title, body, tail), isStamp, m.heading, stamp) == Put(above', title, body', tail)
    ensures Parts(m, above', title, body', tail)
    ensures Core(body') == Core(body) <==> Has(above, m.heading)
  {
    var lines, g := Put(above, title, body, tail), FindFrom(above, m.heading, 0);
    assert !Has(lines, isStamp) && FindFrom(lines, m.heading, 0) == g by {
      FirstStampIn(above, title, body, tail, isStamp);
      FirstHeadingIn(above, title, body, tail, m.heading);
    }
    assert StampLines(lines, isStamp, m.heading, stamp) == lines[..g + 1] + ["", stamp] + lines[g + 1..];
    if Has(above, m.heading) {
      above', body' := above[..g + 1] + ["", stamp] + above[g + 1..], body;
      InAbove(above, title, body, tail, g, stamp);
      assert forall j | 0 <= j < |above'| :: !m.section(above'[j]);
    } else {
      above', body' := above, ["", stamp] + body;
      BelowTitle(above, title, body, tail, stamp);
      StampInsideShows(body, stamp);
    }
  }

  // ----- Replacing and stamping

  function Above(lines: seq<string>, m: Marks): seq<string> {
    if HasSection(lines, m) then lines[..SectionStart(lines, m)] else lines
  }

  function Below(lines: seq<string>, m: Marks): seq<string> {
    if HasSection(lines, m) then lines[SectionEnd(lines, m)..] else []
  }

  lemma ReplacedParts(lines: seq<string>, m: Marks, content: seq<string>)
    returns (above: seq<string>, body: seq<string>)
    requires m.section(m.title) && !m.heading("") && !m.section("")
    requires forall i | 0 <= i < |content| :: !m.heading(content[i])
    ensures ReplaceLines(lines, m, content) == Put(above, HeadOf(lines, m), body, Below(lines, m))
    ensures Parts(m, above, HeadOf(lines, m), body, Below(lines, m))
    ensures above == Above(lines, m) || above == Above(lines, m) + [""]
    ensures body == [""] + content || body == [""] + content + [""]
  {
    if HasSection(lines, m) {
      var h, next := SectionStart(lines, m), SectionEnd(lines, m);
      above, body := lines[..h], [""] + content + if next < |lines| then [""] else [];
      assert lines[..h + 1] == lines[..h] + [lines[h]];
    } else {
      above, body := Separated(lines), [""] + content;
      assert Separated(lines) + [m.title, ""] + content == Put(above, m.title, body, []);
    }
  }

  lemma HasMore(lines: seq<string>, p: string -> bool)
    requires !p("")
    ensures FindFrom([""] + lines, p, 0) == FindFrom(lines, p, 0) + 1
    ensures Has(lines + [""], p) == Has(lines, p)
    ensures Has(lines, p) ==> FindFrom(lines + [""], p, 0) == FindFrom(lines, p, 0)
  {
    FindInJoin([""], lines, p);
    FindInJoin(lines, [""], p);
    FindIs([""], p, 0, 1);
  }

  /** Blank lines do not matter to where the stamp goes. */
  lemma SparesPadded(above: seq<string>, body: seq<string>, below: seq<string>, above2: seq<string>,
                     body2: seq<string>, below2: seq<string>, heading: string -> bool, isStamp: string -> bool,
                     stamp: string)
    requires !heading("") && !isStamp("")
    requires above2 == above || above2 == above + [""]
    requires body2 == body || body2 == body + [""]
    requires below2 == below || below2 == below + [""]
    ensures StampSpares(above2, body2, below2, heading, isStamp, stamp)
        <==> StampSpares(above, body, below, heading, isStamp, stamp)
  {
    HasMore(above, isStamp);
    HasMore(above, heading);
    HasMore(body, isStamp);
    HasMore(below, isStamp);
  }

  lemma SparesFramed(above: seq<string>, content: seq<string>, below: seq<string>, heading: string -> bool,
                     isStamp: string -> bool, stamp: string)
    requires !isStamp("")
    ensures StampSpares(above, [""] + content, below, heading, isStamp, stamp)
        <==> StampSpares(above, content, below, heading, isStamp, stamp)
  {
    HasMore(content, isStamp);
  }

  /**
   * After the section was replaced, written, stamped and written again it reads as the content exactly
   * when the stamp spares it.
   */
  lemma ReplacedReadsIff(lines: seq<string>, m: Marks, content: seq<string>, isStamp: string -> bool, stamp: string)
    requires m.section(m.title) && StampMarks(m, isStamp, stamp)
    requires forall i | 0 <= i < |content| :: !m.heading(content[i])
    ensures ReadsAs(Kept(StampLines(Kept(ReplaceLines(lines, m, content)), isStamp, m.heading, stamp)), m, content)
        <==> StampSpares(Above(lines, m), content, Below(lines, m), m.heading, isStamp, stamp)
  {
    var title := HeadOf(lines, m);
    var above, body := ReplacedParts(lines, m, content);
    var body1, below1 := KeptParts(m, above, title, body, Below(lines, m));
    var above2, body2, below2 := StampedParts(m, above, title, body1, below1, isStamp, stamp);
    var body3, below3 := KeptParts(m, above2, title, body2, below2);
    PartsRead(m, above2, title, body3, below3, content);
    assert Core(body1) == Core(content) by {
      CoreOfKept(body, body1);
      CoreOfFramed(content);
      CoreWithBlank([""] + content);
    }
    CoreOfKept(body2, body3);
    assert StampSpares(above, body1, below1, m.heading, isStamp, stamp)
       <==> StampSpares(Above(lines, m), content, Below(lines, m), m.heading, isStamp, stamp) by {
      SparesPadded(above, body1, below1, above, body, Below(lines, m), m.heading, isStamp, stamp);
      SparesPadded(Above(lines, m), [""] + content, Below(lines, m), above, body, Below(lines, m), m.heading,
                   isStamp, stamp);
      SparesFramed(Above(lines, m), content, Below(lines, m), m.heading, isStamp, stamp);
    }
  }

  lemma HasNone(lines: seq<string>, p: string -> bool)
    requires forall l | l in lines :: !p(l)
    ensures !Has(lines, p)
  {
  }

  /** With no stamp anywhere and no heading above, the stamp goes into the section. */
  lemma NothingSpares(lines: seq<string>, m: Marks, content: seq<string>, isStamp: string -> bool, stamp: string)
    requires forall l | l in lines :: !isStamp(l) && !m.heading(l)
    requires forall l | l in content :: !isStamp(l)
    ensures !StampSpares(Above(lines, m), content, Below(lines, m), m.heading, isStamp, stamp)
  {
    HasNone(Above(lines, m), isStamp);
    HasNone(Above(lines, m), m.heading);
    HasNone(content, isStamp);
    HasNone(Below(lines, m), isStamp);
  }

  /** A section never reads as content with a heading in it. */
  lemma HeadingEndsReading(lines: seq<string>, m: Marks, content: seq<string>)
    requires !m.heading("") && exists l :: l in content && m.heading(l)
    ensures !ReadsAs(lines, m, content)
  {
    var l :| l in content && m.heading(l);
    CoreMembers(content, l);
    if HasSection(lines, m) {
      CoreIsPart(SectionBody(lines, m));
    }
  }
}
