/**
 * How often a line stands under the headings of one section, and what each edit does to that number.
 * `mine` says which headings are those of the section, `heading` which lines are headings at all.
 */
module SectionCounts {
  import opened Sequences
  import opened DocumentLines
  import opened LineEditing

  /** Whether the section goes on after `lines`; `start` says whether it did before them. */
  function Inside(start: bool, lines: seq<string>, mine: string -> bool, heading: string -> bool): bool {
    if lines == [] then start
    else
      var last := lines[|lines| - 1];
      if heading(last) then mine(last) else Inside(start, lines[..|lines| - 1], mine, heading)
  }

  /** How often `l` occurs where the nearest heading above is one of the section's. */
  function CountIn(start: bool, lines: seq<string>, mine: string -> bool, heading: string -> bool, l: string): nat {
    if lines == [] then 0
    else
      var before := lines[..|lines| - 1];
      CountIn(start, before, mine, heading, l)
      + if lines[|lines| - 1] == l && Inside(start, before, mine, heading) then 1 else 0
  }

  lemma SplitLast(a: seq<string>, c: seq<string>)
    requires c != []
    ensures (a + c)[..|a + c| - 1] == a + c[..|c| - 1] && (a + c)[|a + c| - 1] == c[|c| - 1]
  {
  }

  lemma {:induction false} InsideJoin(start: bool, a: seq<string>, c: seq<string>, mine: string -> bool,
                                      heading: string -> bool)
    ensures Inside(start, a + c, mine, heading) == Inside(Inside(start, a, mine, heading), c, mine, heading)
    decreases |c|
  {
    if c == [] {
      assert a + c == a;
    } else {
      SplitLast(a, c);
      InsideJoin(start, a, c[..|c| - 1], mine, heading);
    }
  }

  lemma {:induction false} CountJoin(start: bool, a: seq<string>, c: seq<string>, mine: string -> bool,
                                     heading: string -> bool, l: string)
    ensures CountIn(start, a + c, mine, heading, l)
         == CountIn(start, a, mine, heading, l) + CountIn(Inside(start, a, mine, heading), c, mine, heading, l)
    decreases |c|
  {
    if c == [] {
      assert a + c == a;
    } else {
      SplitLast(a, c);
      CountJoin(start, a, c[..|c| - 1], mine, heading, l);
      InsideJoin(start, a, c[..|c| - 1], mine, heading);
    }
  }

  lemma OneLine(start: bool, x: string, mine: string -> bool, heading: string -> bool, l: string)
    ensures Inside(start, [x], mine, heading) == if heading(x) then mine(x) else start
    ensures CountIn(start, [x], mine, heading, l) == if x == l && start then 1 else 0
  {
    assert [x][..0] == [];
  }

  lemma {:induction false} WithoutHeadings(start: bool, c: seq<string>, mine: string -> bool,
                                           heading: string -> bool, l: string)
    requires forall i | 0 <= i < |c| :: !heading(c[i])
    ensures Inside(start, c, mine, heading) == start
    ensures !start ==> CountIn(start, c, mine, heading, l) == 0
  {
    if c != [] {
      WithoutHeadings(start, c[..|c| - 1], mine, heading, l);
    }
  }

  /** What stands above a heading does not matter to what stands below it. */
  lemma FromHeading(start: bool, c: seq<string>, mine: string -> bool, heading: string -> bool, l: string)
    requires !heading(l) && (c != [] ==> heading(c[0]))
    ensures CountIn(start, c, mine, heading, l) == CountIn(false, c, mine, heading, l)
  {
    if c != [] {
      assert c == [c[0]] + c[1..];
      CountJoin(start, [c[0]], c[1..], mine, heading, l);
      CountJoin(false, [c[0]], c[1..], mine, heading, l);
      OneLine(start, c[0], mine, heading, l);
      OneLine(false, c[0], mine, heading, l);
    }
  }

  /** A line that is neither `l` nor a heading counts for nothing wherever it is put. */
  lemma PutBetween(a: seq<string>, x: string, c: seq<string>, mine: string -> bool, heading: string -> bool, l: string)
    requires !heading(x)
    ensures CountIn(false, a + [x] + c, mine, heading, l)
         == CountIn(false, a + c, mine, heading, l) + if x == l && Inside(false, a, mine, heading) then 1 else 0
  {
    CountJoin(false, a + [x], c, mine, heading, l);
    CountJoin(false, a, [x], mine, heading, l);
    CountJoin(false, a, c, mine, heading, l);
    InsideJoin(false, a, [x], mine, heading);
    OneLine(Inside(false, a, mine, heading), x, mine, heading, l);
  }

  lemma {:induction false} CountIsOccurrences(start: bool, lines: seq<string>, mine: string -> bool,
                                              heading: string -> bool, l: string)
    ensures CountIn(start, lines, mine, heading, l) <= multiset(lines)[l]
  {
    if lines != [] {
      CountIsOccurrences(start, lines[..|lines| - 1], mine, heading, l);
      assert lines == lines[..|lines| - 1] + [lines[|lines| - 1]];
      assert multiset(lines) == multiset(lines[..|lines| - 1]) + multiset{lines[|lines| - 1]};
    }
  }

  // ----- Appending

  lemma InsideAtInsertion(lines: seq<string>, m: Marks, mine: string -> bool)
    requires HasSection(lines, m) && m.heading(lines[SectionStart(lines, m)])
    ensures Inside(false, lines[..InsertionPoint(lines, m)], mine, m.heading) == mine(lines[SectionStart(lines, m)])
  {
    var h, at := SectionStart(lines, m), InsertionPoint(lines, m);
    assert lines[..at] == lines[..h + 1] + lines[h + 1..at];
    InsideJoin(false, lines[..h + 1], lines[h + 1..at], mine, m.heading);
    WithoutHeadings(mine(lines[h]), lines[h + 1..at], mine, m.heading, "");
    assert lines[..h + 1][..h] == lines[..h];
  }

  lemma CountSeparated(lines: seq<string>, mine: string -> bool, heading: string -> bool, l: string)
    requires !heading("") && l != ""
    ensures CountIn(false, Separated(lines), mine, heading, l) == CountIn(false, lines, mine, heading, l)
  {
    if Separated(lines) != lines {
      PutBetween(lines, "", [], mine, heading, l);
      assert lines + [""] + [] == Separated(lines) && lines + [] == lines;
    }
  }

  lemma CountNewSection(lines: seq<string>, title: string, rest: seq<string>, mine: string -> bool,
                        heading: string -> bool, l: string)
    requires heading(title) && !heading("") && l != "" && l != title
    ensures CountIn(false, Separated(lines) + [title, ""] + rest, mine, heading, l)
         == CountIn(false, lines, mine, heading, l) + CountIn(mine(title), rest, mine, heading, l)
  {
    var head := Separated(lines);
    assert head + [title, ""] + rest == head + ([title] + ([""] + rest));
    CountJoin(false, head, [title] + ([""] + rest), mine, heading, l);
    CountSeparated(lines, mine, heading, l);
    var start := Inside(false, head, mine, heading);
    CountJoin(start, [title], [""] + rest, mine, heading, l);
    OneLine(start, title, mine, heading, l);
    CountJoin(mine(title), [""], rest, mine, heading, l);
    OneLine(mine(title), "", mine, heading, l);
  }

  /** An append adds one to the count of its own line in its own section, and changes no other. */
  lemma AppendCounts(lines: seq<string>, m: Marks, bullet: string, mine: string -> bool, l: string)
    requires m.heading(HeadOf(lines, m)) && !m.heading("") && !m.heading(bullet) && !m.heading(l) && l != ""
    ensures CountIn(false, AppendLines(lines, m, bullet), mine, m.heading, l)
         == CountIn(false, lines, mine, m.heading, l) + if bullet == l && mine(HeadOf(lines, m)) then 1 else 0
  {
    if HasSection(lines, m) {
      var at := InsertionPoint(lines, m);
      PutBetween(lines[..at], bullet, lines[at..], mine, m.heading, l);
      assert lines[..at] + lines[at..] == lines;
      InsideAtInsertion(lines, m, mine);
    } else {
      CountNewSection(lines, m.title, [bullet], mine, m.heading, l);
      OneLine(mine(m.title), bullet, mine, m.heading, l);
    }
  }

  // ----- Replacing

  /** Replacing another section takes no line away from this one. */
  lemma ReplaceCounts(lines: seq<string>, m: Marks, content: seq<string>, mine: string -> bool, l: string)
    requires m.heading(HeadOf(lines, m)) && !m.heading("") && !m.heading(l) && l != ""
    requires HasSection(lines, m) ==> !mine(HeadOf(lines, m))
    ensures CountIn(false, ReplaceLines(lines, m, content), mine, m.heading, l)
         >= CountIn(false, lines, mine, m.heading, l)
  {
    if HasSection(lines, m) {
      var h, next := SectionStart(lines, m), SectionEnd(lines, m);
      var inner := [""] + content + if next < |lines| then [""] else [];
      assert lines == lines[..h + 1] + lines[h + 1..next] + lines[next..];
      assert ReplaceLines(lines, m, content) == lines[..h + 1] + inner + lines[next..];
      HeadEndsOutside(lines, h, mine, m.heading);
      MiddleReplaced(lines[..h + 1], lines[h + 1..next], inner, lines[next..], mine, m.heading, l);
    } else {
      CountNewSection(lines, m.title, content, mine, m.heading, l);
    }
  }

  lemma HeadEndsOutside(lines: seq<string>, h: nat, mine: string -> bool, heading: string -> bool)
    requires h < |lines| && heading(lines[h]) && !mine(lines[h])
    ensures !Inside(false, lines[..h + 1], mine, heading)
  {
  }

  lemma MiddleReplaced(head: seq<string>, body: seq<string>, inner: seq<string>, tail: seq<string>,
                       mine: string -> bool, heading: string -> bool, l: string)
    requires !Inside(false, head, mine, heading) && !heading(l) && (tail != [] ==> heading(tail[0]))
    requires forall i | 0 <= i < |body| :: !heading(body[i])
    ensures CountIn(false, head + inner + tail, mine, heading, l)
         >= CountIn(false, head + body + tail, mine, heading, l)
  {
    WithoutHeadings(false, body, mine, heading, l);
    MiddleGone(head, body, tail, mine, heading, l);
    MiddleStays(head, inner, tail, mine, heading, l);
  }

  lemma MiddleGone(head: seq<string>, body: seq<string>, tail: seq<string>, mine: string -> bool,
                   heading: string -> bool, l: string)
    requires !Inside(false, head, mine, heading) && !heading(l) && (tail != [] ==> heading(tail[0]))
    requires CountIn(false, body, mine, heading, l) == 0
    ensures CountIn(false, head + body + tail, mine, heading, l)
         == CountIn(false, head, mine, heading, l) + CountIn(false, tail, mine, heading, l)
  {
    CountJoin(false, head + body, tail, mine, heading, l);
    CountJoin(false, head, body, mine, heading, l);
    FromHeading(Inside(false, head + body, mine, heading), tail, mine, heading, l);
  }

  lemma MiddleStays(head: seq<string>, body: seq<string>, tail: seq<string>, mine: string -> bool,
                    heading: string -> bool, l: string)
    requires !heading(l) && (tail != [] ==> heading(tail[0]))
    ensures CountIn(false, head + body + tail, mine, heading, l)
         >= CountIn(false, head, mine, heading, l) + CountIn(false, tail, mine, heading, l)
  {
    CountJoin(false, head + body, tail, mine, heading, l);
    CountJoin(false, head, body, mine, heading, l);
    FromHeading(Inside(false, head + body, mine, heading), tail, mine, heading, l);
  }

  // ----- Stamping, and passing through the file

  lemma StampOnTop(lines: seq<string>, heading: string -> bool, stamp: string, mine: string -> bool, l: string)
    requires !heading(stamp) && !heading("") && stamp != l && l != ""
    ensures CountIn(false, [stamp, ""] + lines, mine, heading, l) == CountIn(false, lines, mine, heading, l)
  {
    TwoBetween([], stamp, "", lines, mine, heading, l);
    assert [] + lines == lines && [] + [stamp, ""] + lines == [stamp, ""] + lines;
  }

  lemma StampBelow(lines: seq<string>, h: nat, heading: string -> bool, stamp: string, mine: string -> bool, l: string)
    requires h < |lines| && !heading(stamp) && !heading("") && stamp != l && l != ""
    ensures CountIn(false, lines[..h + 1] + ["", stamp] + lines[h + 1..], mine, heading, l)
         == CountIn(false, lines, mine, heading, l)
  {
    TwoBetween(lines[..h + 1], "", stamp, lines[h + 1..], mine, heading, l);
    assert lines[..h + 1] + lines[h + 1..] == lines;
  }

  lemma LineReplaced(lines: seq<string>, i: nat, x: string, mine: string -> bool, heading: string -> bool, l: string)
    requires i < |lines| && !heading(x) && x != l && !heading(lines[i]) && lines[i] != l
    ensures CountIn(false, lines[i := x], mine, heading, l) == CountIn(false, lines, mine, heading, l)
  {
    assert lines == lines[..i] + [lines[i]] + lines[i + 1..];
    assert lines[i := x] == lines[..i] + [x] + lines[i + 1..];
    PutBetween(lines[..i], lines[i], lines[i + 1..], mine, heading, l);
    PutBetween(lines[..i], x, lines[i + 1..], mine, heading, l);
  }

  /** Stamping moves no line out of its section. */
  lemma StampCounts(lines: seq<string>, isStamp: string -> bool, heading: string -> bool, stamp: string,
                    mine: string -> bool, l: string)
    requires forall x :: isStamp(x) ==> !heading(x) && x != l
    requires isStamp(stamp) && !heading("") && l != ""
    ensures CountIn(false, StampLines(lines, isStamp, heading, stamp), mine, heading, l)
         == CountIn(false, lines, mine, heading, l)
  {
    var i, h := FindFrom(lines, isStamp, 0), FindFrom(lines, heading, 0);
    var lines' := StampLines(lines, isStamp, heading, stamp);
    assert isStamp(stamp) && !heading(stamp) && stamp != l;
    if i < |lines| {
      assert lines' == lines[i := stamp] && isStamp(lines[i]);
      LineReplaced(lines, i, stamp, mine, heading, l);
    } else if h < |lines| {
      assert lines' == lines[..h + 1] + ["", stamp] + lines[h + 1..];
      StampBelow(lines, h, heading, stamp, mine, l);
    } else {
      assert lines' == [stamp, ""] + lines;
      StampOnTop(lines, heading, stamp, mine, l);
    }
  }

  lemma TwoBetween(a: seq<string>, x: string, y: string, c: seq<string>, mine: string -> bool,
                   heading: string -> bool, l: string)
    requires !heading(x) && !heading(y) && x != l && y != l
    ensures CountIn(false, a + [x, y] + c, mine, heading, l) == CountIn(false, a + c, mine, heading, l)
  {
    assert a + [x, y] + c == a + [x] + [y] + c;
    PutBetween(a + [x], y, c, mine, heading, l);
    PutBetween(a, x, c, mine, heading, l);
  }

  lemma KeptCounts(lines: seq<string>, mine: string -> bool, heading: string -> bool, l: string)
    requires l != ""
    ensures CountIn(false, Kept(lines), mine, heading, l) == CountIn(false, lines, mine, heading, l)
  {
  }
}
