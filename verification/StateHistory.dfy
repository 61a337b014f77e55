/** The protocol and the edits together: what a run of concurrent operations leaves in the document. */
module StateHistory {
  import opened Wrappers
  import opened DocumentLines
  import opened StateDocument
  import opened DocumentShape
  import opened StateEdits
  import opened StateProtocol
  import opened FiledLines

  ghost predicate CleanCommit(c: Commit) {
    CleanEdit(c.edit) && CleanLine(c.now)
  }

  lemma ApplyWritesIgnoreBody()
    ensures WritesIgnoreBody(Apply)
  {
  }

  lemma {:induction false} ReplayIsClean(initial: string, log: seq<Commit>)
    requires '\r' !in initial && AllClean(log)
    ensures '\r' !in Replay(Apply, initial, log)
    ensures log != [] ==> "Last updated: " + log[|log| - 1].now in Lines(Replay(Apply, initial, log))
  {
    if log != [] {
      var init, last := log[..|log| - 1], log[|log| - 1];
      ReplayIsClean(initial, init);
      assert CleanCommit(last);
      EditedDocumentIsStamped(last.edit, last.now, Replay(Apply, initial, init));
    }
  }

  // ----- Appends are counted

  ghost predicate AllClean(log: seq<Commit>) {
    forall c | c in log :: CleanCommit(c)
  }

  /** How many of the commits file `l` under `title`. */
  ghost function Filings(log: seq<Commit>, title: string, l: string): nat {
    if log == [] then 0
    else Filings(log[..|log| - 1], title, l) + if Files(log[|log| - 1].edit, title, l) then 1 else 0
  }

  ghost predicate NoRewrite(log: seq<Commit>, from: nat, title: string) {
    forall j | from <= j < |log| :: !Rewrites(log[j].edit, title)
  }

  ghost predicate OnlyAppends(log: seq<Commit>, from: nat) {
    forall j | from <= j < |log| :: log[j].edit.Append?
  }

  /** How often `l` stands under `title` when the commits of the log are done. */
  function FiledAfter(initial: string, log: seq<Commit>, title: string, l: string): nat {
    Filed(Replay(Apply, initial, log), title, l)
  }

  lemma CommitFiles(initial: string, log: seq<Commit>, title: string, l: string)
    requires '\r' !in initial && AllClean(log) && Fileable(l) && log != []
    ensures var (before, last) := (log[..|log| - 1], log[|log| - 1].edit);
            var filed := FiledAfter(initial, before, title, l) + if Files(last, title, l) then 1 else 0;
            && (!Rewrites(last, title) ==> FiledAfter(initial, log, title, l) >= filed)
            && (last.Append? ==> FiledAfter(initial, log, title, l) == filed)
  {
    var before, last := log[..|log| - 1], log[|log| - 1];
    ReplayIsClean(initial, before);
    assert CleanCommit(last);
    EditFiles(last.edit, last.now, Replay(Apply, initial, before), title, l);
  }

  lemma FilingsGoOn(log: seq<Commit>, from: nat, title: string, l: string)
    requires from < |log|
    ensures var (before, last) := (log[..|log| - 1], log[|log| - 1].edit);
            && before[..from] == log[..from]
            && Filings(log[from..], title, l)
               == Filings(before[from..], title, l) + if Files(last, title, l) then 1 else 0
  {
    var n := |log| - 1;
    assert log[from..][..n - from] == log[..n][from..];
  }

  /**
   * From any point of the log on, as long as nothing rewrites the section, the document holds at least
   * as many lines `l` under it as there were then and appends have filed since; with nothing but
   * appends, to whatever sections, exactly as many.
   */
  lemma {:induction false} AppendsAreCounted(initial: string, log: seq<Commit>, from: nat, title: string, l: string)
    requires '\r' !in initial && AllClean(log) && Fileable(l) && from <= |log| && NoRewrite(log, from, title)
    ensures var filed := FiledAfter(initial, log[..from], title, l) + Filings(log[from..], title, l);
            && FiledAfter(initial, log, title, l) >= filed
            && (OnlyAppends(log, from) ==> FiledAfter(initial, log, title, l) == filed)
    decreases |log|
  {
    if from == |log| {
      assert log[..from] == log && log[from..] == [];
    } else {
      AppendsAreCounted(initial, log[..|log| - 1], from, title, l);
      FilingsGoOn(log, from, title, l);
      CommitFiles(initial, log, title, l);
    }
  }

  lemma {:induction false} FilingIsCounted(log: seq<Commit>, i: nat, title: string, l: string)
    requires i < |log| && Files(log[i].edit, title, l)
    ensures Filings(log, title, l) >= 1
  {
    if i < |log| - 1 {
      FilingIsCounted(log[..|log| - 1], i, title, l);
    }
  }

  /**
   * No append is lost, and none of several equal ones: in every reachable state the document holds a
   * line under a section at least as often as appends filed it there since the last full write or
   * replacement of that very section, whatever happened to other sections in between.
   */
  lemma NoAppendIsLost(doc: Option<string>, s: State, from: nat, title: string, l: string)
    requires Reachable(Apply, doc, s)
    requires '\r' !in Visible(Initial(doc)) && AllClean(s.log)
    requires Fileable(l) && from <= |s.log| && NoRewrite(s.log, from, title)
    ensures Filings(s.log[from..], title, l) <= Filed(Visible(s), title, l) <= multiset(Lines(Visible(s)))[l]
  {
    ApplyWritesIgnoreBody();
    ReachableStatesAreConsistent(Apply, doc, s);
    AppendsAreCounted(Visible(Initial(doc)), s.log, from, title, l);
    FiledIsThere(Visible(s), title, l);
  }

  /** The text of one append stands under its section, behind a dash or as the item it is, until a rewrite. */
  lemma AppendedBulletStays(doc: Option<string>, s: State, i: nat)
    requires Reachable(Apply, doc, s)
    requires '\r' !in Visible(Initial(doc)) && AllClean(s.log)
    requires i < |s.log| && s.log[i].edit.Append?
    requires NoRewrite(s.log, i, TitleOf(s.log[i].edit.section))
    ensures var edit := s.log[i].edit;
            var item := if IsItem(edit.line) then edit.line else "- " + edit.line;
            Filed(Visible(s), TitleOf(edit.section), item) >= 1 && item in Lines(Visible(s))
  {
    var edit := s.log[i].edit;
    BulletIs(edit.line);
    BulletIsFileable(edit.line);
    NoAppendIsLost(doc, s, i, TitleOf(edit.section), Bullet(edit.line));
    assert s.log[i..][0] == s.log[i];
    FilingIsCounted(s.log[i..], 0, TitleOf(edit.section), Bullet(edit.line));
  }

  /** Once any operation has taken effect, every reader finds the stamp of the latest one. */
  lemma ReadersFindTheStamp(doc: Option<string>, s: State)
    requires Reachable(Apply, doc, s)
    requires '\r' !in Visible(Initial(doc)) && s.log != [] && AllClean(s.log)
    ensures "Last updated: " + s.log[|s.log| - 1].now in Lines(Visible(s))
  {
    ApplyWritesIgnoreBody();
    ReachableStatesAreConsistent(Apply, doc, s);
    ReplayIsClean(Visible(Initial(doc)), s.log);
  }
}
