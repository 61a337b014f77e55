/** What operations and readers of the state document can always bring about. */
module ProtocolProgress {
  import opened Wrappers
  import opened StateEdits
  import opened StateProtocol

  // ----- Composing runs

  lemma {:induction false} ExecuteJoin(editor: Editor, s: State, a: seq<Action>, b: seq<Action>)
    ensures Execute(editor, s, a + b) == Execute(editor, Execute(editor, s, a), b)
    decreases |b|
  {
    if b == [] {
      assert a + b == a;
    } else {
      assert (a + b)[..|a + b| - 1] == a + b[..|b| - 1];
      ExecuteJoin(editor, s, a, b[..|b| - 1]);
    }
  }

  lemma ExecuteOne(editor: Editor, s: State, a: Action)
    ensures Execute(editor, s, [a]) == Step(editor, s, a)
  {
    assert [a][..0] == [];
    assert Execute(editor, s, []) == s;
  }

  lemma ExecuteFirst(editor: Editor, s: State, a: Action, rest: seq<Action>)
    ensures Execute(editor, s, [a] + rest) == Execute(editor, Step(editor, s, a), rest)
  {
    ExecuteJoin(editor, s, [a], rest);
    ExecuteOne(editor, s, a);
  }

  /** Nothing new is started, and nothing fails or is killed. */
  ghost predicate Calm(actions: seq<Action>) {
    forall a | a in actions :: !a.Start? && !a.Fail? && !a.Kill?
  }

  // ----- The lock holder finishes

  /** `end` is `s` with `op` done, the lock free, `commit` the only one more, and `text` in place. */
  ghost predicate Ended(s: State, end: State, op: OpId, commit: Commit, text: string) {
    && end.phases == s.phases[op := Done(true)] && end.edits == s.edits && end.readers == s.readers
    && end.holder == None && end.log == s.log + [commit] && Visible(end) == text
  }

  /** A state in which only `op` is further than in `s`. */
  ghost predicate Advanced(s: State, mid: State, op: OpId) {
    && op in mid.phases && mid.phases == s.phases[op := mid.phases[op]]
    && mid.edits == s.edits && mid.readers == s.readers && mid.log == s.log
  }

  lemma EndedFrom(s: State, mid: State, end: State, op: OpId, commit: Commit, text: string)
    requires Advanced(s, mid, op) && Ended(mid, end, op, commit, text)
    ensures Ended(s, end, op, commit, text)
  {
    assert s.phases[op := mid.phases[op]][op := Done(true)] == s.phases[op := Done(true)];
  }

  ghost predicate Writes(s: State, op: OpId, now: string, full: string, tmp: nat) {
    && op in s.phases && op in s.edits && s.phases[op] == Writing(now, full, tmp)
    && s.holder == Some(op) && tmp in s.files && tmp in s.temps && s.files[tmp] <= full
  }

  lemma WriteStep(editor: Editor, s: State, op: OpId, now: string, full: string, tmp: nat)
    requires Writes(s, op, now, full, tmp)
    ensures Step(editor, s, WriteUpTo(op, |full|)) == s.(files := s.files[tmp := full])
  {
    assert full[..|full|] == full;
  }

  lemma RenameStep(editor: Editor, s: State, op: OpId, now: string, full: string, tmp: nat)
    requires Writes(s, op, now, full, tmp) && s.files[tmp] == full
    ensures Step(editor, s, Rename(op))
         == s.(doc := Some(tmp), temps := s.temps - {tmp}, phases := s.phases[op := Renamed],
               log := s.log + [Commit(op, s.edits[op], now)])
  {
  }

  lemma UnlockStep(editor: Editor, s: State, op: OpId)
    requires op in s.phases && op in s.edits && (s.phases[op].Renamed? || s.phases[op].Failed?)
    ensures Step(editor, s, Unlock(op)) == s.(holder := None, phases := s.phases[op := Done(s.phases[op].Renamed?)])
  {
  }

  lemma RenamedFinishes(editor: Editor, s: State, op: OpId, now: string, full: string, tmp: nat)
    requires Writes(s, op, now, full, tmp) && s.files[tmp] == full
    ensures Ended(s, Step(editor, Step(editor, s, Rename(op)), Unlock(op)), op, Commit(op, s.edits[op], now), full)
  {
    RenameStep(editor, s, op, now, full, tmp);
    UnlockStep(editor, Step(editor, s, Rename(op)), op);
    assert s.phases[op := Renamed][op := Done(true)] == s.phases[op := Done(true)];
  }

  function Writeout(op: OpId, full: string): seq<Action> {
    [WriteUpTo(op, |full|)] + ([Rename(op)] + [Unlock(op)])
  }

  lemma WriteoutSteps(editor: Editor, s: State, op: OpId, full: string)
    ensures Execute(editor, s, Writeout(op, full))
         == Step(editor, Step(editor, Step(editor, s, WriteUpTo(op, |full|)), Rename(op)), Unlock(op))
  {
    var written := Step(editor, s, WriteUpTo(op, |full|));
    ExecuteFirst(editor, s, WriteUpTo(op, |full|), [Rename(op)] + [Unlock(op)]);
    ExecuteFirst(editor, written, Rename(op), [Unlock(op)]);
    ExecuteOne(editor, Step(editor, written, Rename(op)), Unlock(op));
  }

  lemma WriterFinishes(editor: Editor, s: State, op: OpId, now: string, full: string, tmp: nat)
    requires Writes(s, op, now, full, tmp)
    ensures Ended(s, Execute(editor, s, Writeout(op, full)), op, Commit(op, s.edits[op], now), full)
  {
    WriteoutSteps(editor, s, op, full);
    WriteStep(editor, s, op, now, full, tmp);
    var written := s.(files := s.files[tmp := full]);
    RenamedFinishes(editor, written, op, now, full, tmp);
    var end := Execute(editor, s, Writeout(op, full));
    assert s.phases == s.phases[op := s.phases[op]];
    EndedFrom(s, written, end, op, Commit(op, s.edits[op], now), full);
  }

  function CreateAndWrite(op: OpId, full: string, tmp: nat, now: string): seq<Action> {
    [Create(op, tmp, now)] + Writeout(op, full)
  }

  lemma CreateStep(editor: Editor, s: State, op: OpId, tmp: nat, now: string)
    requires op in s.phases && op in s.edits && s.phases[op] == Loaded(Visible(s)) && tmp !in s.files
    ensures var full := editor(s.edits[op], now, Visible(s));
            Step(editor, s, Create(op, tmp, now))
            == s.(files := s.files[tmp := ""], temps := s.temps + {tmp},
                  phases := s.phases[op := Writing(now, full, tmp)])
  {
  }

  lemma LoadedFinishes(editor: Editor, s: State, op: OpId, full: string, tmp: nat, now: string)
    requires op in s.phases && op in s.edits && s.phases[op] == Loaded(Visible(s))
    requires s.holder == Some(op) && tmp !in s.files && full == editor(s.edits[op], now, Visible(s))
    ensures Ended(s, Execute(editor, s, CreateAndWrite(op, full, tmp, now)), op, Commit(op, s.edits[op], now), full)
  {
    CreateStep(editor, s, op, tmp, now);
    var created := Step(editor, s, Create(op, tmp, now));
    ExecuteFirst(editor, s, Create(op, tmp, now), Writeout(op, full));
    WriterFinishes(editor, created, op, now, full, tmp);
    EndedFrom(s, created, Execute(editor, created, Writeout(op, full)), op, Commit(op, s.edits[op], now), full);
  }

  function LoadAndWrite(op: OpId, full: string, tmp: nat, now: string): seq<Action> {
    [Load(op)] + CreateAndWrite(op, full, tmp, now)
  }

  lemma LockedFinishes(editor: Editor, s: State, op: OpId, full: string, tmp: nat, now: string)
    requires op in s.phases && op in s.edits && s.phases[op].Locked?
    requires s.holder == Some(op) && tmp !in s.files && full == editor(s.edits[op], now, Visible(s))
    ensures Ended(s, Execute(editor, s, LoadAndWrite(op, full, tmp, now)), op, Commit(op, s.edits[op], now), full)
  {
    var loaded := Step(editor, s, Load(op));
    assert loaded == s.(phases := s.phases[op := Loaded(Visible(s))]);
    ExecuteFirst(editor, s, Load(op), CreateAndWrite(op, full, tmp, now));
    LoadedFinishes(editor, loaded, op, full, tmp, now);
    var end := Execute(editor, loaded, CreateAndWrite(op, full, tmp, now));
    EndedFrom(s, loaded, end, op, Commit(op, s.edits[op], now), full);
  }

  lemma WaitingFinishes(editor: Editor, s: State, op: OpId, full: string, tmp: nat, now: string)
    requires op in s.phases && op in s.edits && s.phases[op].Waiting?
    requires s.holder == None && tmp !in s.files && full == editor(s.edits[op], now, Visible(s))
    ensures Ended(s, Execute(editor, s, [Lock(op)] + LoadAndWrite(op, full, tmp, now)), op,
                  Commit(op, s.edits[op], now), full)
  {
    var locked := Step(editor, s, Lock(op));
    assert locked == s.(holder := Some(op), phases := s.phases[op := Locked]);
    ExecuteFirst(editor, s, Lock(op), LoadAndWrite(op, full, tmp, now));
    LockedFinishes(editor, locked, op, full, tmp, now);
    var end := Execute(editor, locked, LoadAndWrite(op, full, tmp, now));
    EndedFrom(s, locked, end, op, Commit(op, s.edits[op], now), full);
  }

  // ----- Whoever waits can finish

  lemma {:induction false} Bounded(files: set<nat>) returns (bound: nat)
    ensures forall f | f in files :: f < bound
    decreases files
  {
    bound := 0;
    if f :| f in files {
      var rest := Bounded(files - {f});
      bound := if f < rest then rest else f + 1;
      assert forall g | g in files :: g == f || g in files - {f};
    }
  }

  /** The lock is free, and every other operation is where it was. */
  ghost predicate Released(s: State, end: State, op: OpId) {
    && end.holder == None && end.edits == s.edits
    && forall other | other in s.phases && other != op :: other in end.phases && end.phases[other] == s.phases[other]
  }

  lemma EndedReleases(s: State, end: State, op: OpId, commit: Commit, text: string)
    requires Ended(s, end, op, commit, text)
    ensures Released(s, end, op)
  {
  }

  lemma HolderReleases(editor: Editor, s: State, op: OpId) returns (actions: seq<Action>)
    requires op in s.phases && op in s.edits && s.holder == Some(op) && Holding(s.phases[op])
    requires UpToDate(editor, s, op)
    ensures Calm(actions) && Released(s, Execute(editor, s, actions), op)
  {
    var tmp := Bounded(s.files.Keys);
    var full := editor(s.edits[op], "", Visible(s));
    match s.phases[op]
    case Locked =>
      actions := LoadAndWrite(op, full, tmp, "");
      LockedFinishes(editor, s, op, full, tmp, "");
      EndedReleases(s, Execute(editor, s, actions), op, Commit(op, s.edits[op], ""), full);
    case Loaded(_) =>
      actions := CreateAndWrite(op, full, tmp, "");
      LoadedFinishes(editor, s, op, full, tmp, "");
      EndedReleases(s, Execute(editor, s, actions), op, Commit(op, s.edits[op], ""), full);
    case Writing(now, text, file) =>
      actions := Writeout(op, text);
      WriterFinishes(editor, s, op, now, text, file);
      EndedReleases(s, Execute(editor, s, actions), op, Commit(op, s.edits[op], now), text);
    case Renamed =>
      actions := [Unlock(op)];
      ExecuteOne(editor, s, Unlock(op));
      UnlockStep(editor, s, op);
    case Failed =>
      actions := [Unlock(op)];
      ExecuteOne(editor, s, Unlock(op));
      UnlockStep(editor, s, op);
  }

  /** What a waiting operation may have to wait for. */
  lemma OthersFinish(editor: Editor, doc: Option<string>, s: State, op: OpId) returns (others: seq<Action>)
    requires WritesIgnoreBody(editor) && Reachable(editor, doc, s)
    requires op in s.phases && s.phases[op].Waiting?
    ensures Calm(others) && (s.holder == None ==> others == [])
    ensures var before := Execute(editor, s, others);
            && op in before.phases && before.phases[op].Waiting? && op in before.edits
            && before.edits == s.edits && before.holder == None
  {
    ReachableStatesAreConsistent(editor, doc, s);
    others := [];
    if s.holder.Some? {
      var holder := s.holder.value;
      assert holder in s.phases && UpToDate(editor, s, holder) && Holding(s.phases[holder]);
      others := HolderReleases(editor, s, holder);
    }
  }

  lemma OwnIsCalm(op: OpId, full: string, tmp: nat, now: string)
    ensures Calm([Lock(op)] + LoadAndWrite(op, full, tmp, now))
  {
  }

  /** The run `others + own` ends with `op` done, its edit made last and on what was in place before. */
  ghost predicate Succeeds(editor: Editor, s: State, others: seq<Action>, own: seq<Action>, op: OpId, now: string) {
    var before, end := Execute(editor, s, others), Execute(editor, s, others + own);
    && op in s.edits && op in end.phases && end.phases[op] == Done(true)
    && end.log == before.log + [Commit(op, s.edits[op], now)]
    && Visible(end) == editor(s.edits[op], now, Visible(before))
  }

  /**
   * From every reachable state an operation that waits can finish, without anything being started, failing
   * or being killed: at most the holder of the lock goes first. Its edit is then the last that took effect,
   * made on the document that was in place.
   */
  lemma WaitingOpCanFinish(editor: Editor, doc: Option<string>, s: State, op: OpId, now: string)
    returns (others: seq<Action>, own: seq<Action>)
    requires WritesIgnoreBody(editor) && Reachable(editor, doc, s)
    requires op in s.phases && s.phases[op].Waiting?
    ensures Calm(others + own) && (s.holder == None ==> others == [])
    ensures Succeeds(editor, s, others, own, op, now)
  {
    others := OthersFinish(editor, doc, s, op);
    var before := Execute(editor, s, others);
    var tmp := Bounded(before.files.Keys);
    var full := editor(s.edits[op], now, Visible(before));
    own := [Lock(op)] + LoadAndWrite(op, full, tmp, now);
    OwnIsCalm(op, full, tmp, now);
    assert Ended(before, Execute(editor, before, own), op, Commit(op, s.edits[op], now), full) by {
      WaitingFinishes(editor, before, op, full, tmp, now);
    }
    ExecuteJoin(editor, s, others, own);
  }

  function SevenSteps(op: OpId, edit: Edit, full: string, tmp: nat, now: string): seq<Action> {
    [Start(op, edit), Lock(op), Load(op), Create(op, tmp, now), WriteUpTo(op, |full|), Rename(op), Unlock(op)]
  }

  lemma SevenStepsAre(op: OpId, edit: Edit, full: string, tmp: nat, now: string)
    ensures SevenSteps(op, edit, full, tmp, now) == [Start(op, edit)] + ([Lock(op)] + LoadAndWrite(op, full, tmp, now))
  {
  }

  /** From a state with a free lock, the seven steps of an operation make its edit and nothing else. */
  lemma SevenStepsCommit(editor: Editor, s: State, op: OpId, edit: Edit, tmp: nat, now: string)
    requires s.holder == None && op !in s.phases && tmp !in s.files
    ensures var full := editor(edit, now, Visible(s));
            var end := Execute(editor, s, SevenSteps(op, edit, full, tmp, now));
            && end.phases == s.phases[op := Done(true)] && end.readers == s.readers && end.holder == None
            && end.log == s.log + [Commit(op, edit, now)] && Visible(end) == full
  {
    var full := editor(edit, now, Visible(s));
    var begun := Step(editor, s, Start(op, edit));
    assert begun == s.(edits := s.edits[op := edit], phases := s.phases[op := Waiting]);
    SevenStepsAre(op, edit, full, tmp, now);
    ExecuteFirst(editor, s, Start(op, edit), [Lock(op)] + LoadAndWrite(op, full, tmp, now));
    WaitingFinishes(editor, begun, op, full, tmp, now);
    assert s.phases[op := Waiting][op := Done(true)] == s.phases[op := Done(true)];
  }

  function SixSteps(op: OpId, edit: Edit, full: string, tmp: nat, now: string): seq<Action> {
    [Start(op, edit), Lock(op), Create(op, tmp, now), WriteUpTo(op, |full|), Rename(op), Unlock(op)]
  }

  lemma SixStepsAre(op: OpId, edit: Edit, full: string, tmp: nat, now: string)
    ensures SixSteps(op, edit, full, tmp, now) == [Start(op, edit)] + ([Lock(op)] + CreateAndWrite(op, full, tmp, now))
  {
  }

  lemma UnreadFinishes(editor: Editor, s: State, op: OpId, full: string, tmp: nat, now: string)
    requires op in s.phases && op in s.edits && s.phases[op].Locked? && s.edits[op].Write?
    requires s.holder == Some(op) && tmp !in s.files && full == editor(s.edits[op], now, "")
    ensures Ended(s, Execute(editor, s, CreateAndWrite(op, full, tmp, now)), op, Commit(op, s.edits[op], now), full)
  {
    var created := Step(editor, s, Create(op, tmp, now));
    assert created == s.(files := s.files[tmp := ""], temps := s.temps + {tmp},
                         phases := s.phases[op := Writing(now, full, tmp)]);
    ExecuteFirst(editor, s, Create(op, tmp, now), Writeout(op, full));
    WriterFinishes(editor, created, op, now, full, tmp);
    EndedFrom(s, created, Execute(editor, created, Writeout(op, full)), op, Commit(op, s.edits[op], now), full);
  }

  lemma FreeUnreadFinishes(editor: Editor, s: State, op: OpId, full: string, tmp: nat, now: string)
    requires op in s.phases && op in s.edits && s.phases[op].Waiting? && s.edits[op].Write?
    requires s.holder == None && tmp !in s.files && full == editor(s.edits[op], now, "")
    ensures Ended(s, Execute(editor, s, [Lock(op)] + CreateAndWrite(op, full, tmp, now)), op,
                  Commit(op, s.edits[op], now), full)
  {
    var locked := Step(editor, s, Lock(op));
    assert locked == s.(holder := Some(op), phases := s.phases[op := Locked]);
    ExecuteFirst(editor, s, Lock(op), CreateAndWrite(op, full, tmp, now));
    UnreadFinishes(editor, locked, op, full, tmp, now);
    var end := Execute(editor, locked, CreateAndWrite(op, full, tmp, now));
    EndedFrom(s, locked, end, op, Commit(op, s.edits[op], now), full);
  }

  lemma StartStep(editor: Editor, s: State, op: OpId, edit: Edit)
    requires op !in s.phases
    ensures Step(editor, s, Start(op, edit)) == s.(edits := s.edits[op := edit], phases := s.phases[op := Waiting])
  {
  }

  lemma StartedEnds(s: State, end: State, op: OpId, edit: Edit, commit: Commit, text: string)
    requires Ended(s.(edits := s.edits[op := edit], phases := s.phases[op := Waiting]), end, op, commit, text)
    ensures end.phases == s.phases[op := Done(true)] && end.readers == s.readers && end.holder == None
    ensures end.log == s.log + [commit] && Visible(end) == text
  {
    assert s.phases[op := Waiting][op := Done(true)] == s.phases[op := Done(true)];
  }

  /** A full write does without reading: six steps put its document in place whatever stood there. */
  lemma FullWriteCommits(editor: Editor, s: State, op: OpId, edit: Edit, tmp: nat, now: string)
    requires s.holder == None && op !in s.phases && tmp !in s.files && edit.Write?
    ensures var full := editor(edit, now, "");
            var end := Execute(editor, s, SixSteps(op, edit, full, tmp, now));
            && end.phases == s.phases[op := Done(true)] && end.readers == s.readers && end.holder == None
            && end.log == s.log + [Commit(op, edit, now)] && Visible(end) == full
  {
    var full := editor(edit, now, "");
    var begun, rest := Step(editor, s, Start(op, edit)), [Lock(op)] + CreateAndWrite(op, full, tmp, now);
    StartStep(editor, s, op, edit);
    SixStepsAre(op, edit, full, tmp, now);
    ExecuteFirst(editor, s, Start(op, edit), rest);
    FreeUnreadFinishes(editor, begun, op, full, tmp, now);
    StartedEnds(s, Execute(editor, begun, rest), op, edit, Commit(op, edit, now), full);
  }

  // ----- Failures and kills

  /** Any operation that is under way can be killed; the lock it held is free again. */
  lemma AnyOperationMayDie(editor: Editor, doc: Option<string>, s: State, op: OpId)
    requires WritesIgnoreBody(editor) && Reachable(editor, doc, s)
    requires op in s.phases && !s.phases[op].Done? && !s.phases[op].Killed?
    ensures var end := Execute(editor, s, [Kill(op)]);
            && end.phases == s.phases[op := Killed] && end.log == s.log && Visible(end) == Visible(s)
            && end.holder == if s.holder == Some(op) then None else s.holder
  {
    ReachableStatesAreConsistent(editor, doc, s);
    ExecuteOne(editor, s, Kill(op));
  }

  lemma FailEnds(editor: Editor, s: State, op: OpId)
    requires op in s.phases && op in s.edits
    requires s.phases[op].Waiting? || s.phases[op].Locked? || s.phases[op].Loaded? || s.phases[op].Writing?
    ensures Step(editor, Step(editor, s, Fail(op)), Unlock(op))
         == s.(phases := s.phases[op := Done(false)], holder := if s.phases[op].Waiting? then s.holder else None)
  {
    var failed := Step(editor, s, Fail(op));
    if s.phases[op].Waiting? {
      assert failed == s.(phases := s.phases[op := Done(false)]);
    } else {
      UnlockStep(editor, failed, op);
      assert s.phases[op := Failed][op := Done(false)] == s.phases[op := Done(false)];
    }
  }

  /** Until its file is renamed, any operation can fail, and then reports it without effect. */
  lemma AnyOperationMayFail(editor: Editor, doc: Option<string>, s: State, op: OpId)
    requires WritesIgnoreBody(editor) && Reachable(editor, doc, s)
    requires op in s.phases
    requires s.phases[op].Waiting? || s.phases[op].Locked? || s.phases[op].Loaded? || s.phases[op].Writing?
    ensures var end := Execute(editor, s, [Fail(op)] + [Unlock(op)]);
            && end.phases == s.phases[op := Done(false)] && end.log == s.log && Visible(end) == Visible(s)
            && end.holder == if s.holder == Some(op) then None else s.holder
  {
    assert op in s.edits && (Holding(s.phases[op]) <==> s.holder == Some(op)) by {
      ReachableStatesAreConsistent(editor, doc, s);
    }
    ExecuteFirst(editor, s, Fail(op), [Unlock(op)]);
    ExecuteOne(editor, Step(editor, s, Fail(op)), Unlock(op));
    FailEnds(editor, s, op);
  }

  // ----- Readers

  lemma {:induction false} ReadersHoldPrefixes(editor: Editor, doc: Option<string>, actions: seq<Action>)
    requires WritesIgnoreBody(editor)
    ensures ReadersInPlace(Execute(editor, Initial(doc), actions))
  {
    if actions != [] {
      var init, last := actions[..|actions| - 1], actions[|actions| - 1];
      ReadersHoldPrefixes(editor, doc, init);
      RunKeepsInv(editor, doc, init);
      StepKeepsReaders(editor, Visible(Initial(doc)), Execute(editor, Initial(doc), init), last);
    }
  }

  /** Every reader has read a part of a file that is written no more. */
  ghost predicate ReadersInPlace(s: State) {
    forall r | r in s.readers && s.readers[r].Reading? :: ReaderInPlace(s, s.readers[r])
  }

  ghost predicate ReaderInPlace(s: State, p: ReadPhase)
    requires p.Reading?
  {
    && p.got <= Contents(s.files, p.file)
    && (p.file.Some? ==> p.file.value in s.files && p.file.value !in s.temps)
  }

  lemma StepKeepsReaders(editor: Editor, initial: string, s: State, a: Action)
    requires Inv(editor, s, initial) && ReadersInPlace(s)
    ensures ReadersInPlace(Step(editor, s, a))
  {
    var s' := Step(editor, s, a);
    forall r | r in s'.readers && s'.readers[r].Reading? ensures ReaderInPlace(s', s'.readers[r]) {
      if r in s.readers {
        assert s.readers[r].Reading? && ReaderInPlace(s, s.readers[r]);
      }
      if s'.readers[r].file.Some? {
        StepKeepsFile(editor, initial, s, a, s'.readers[r].file.value);
      }
    }
  }

  /** An open reader can always read to the end, by steps of its own. */
  lemma ReaderCanFinish(editor: Editor, doc: Option<string>, s: State, r: ReaderId) returns (n: nat)
    requires WritesIgnoreBody(editor) && Reachable(editor, doc, s)
    requires r in s.readers && s.readers[r].Reading?
    ensures var end := Execute(editor, s, [ReadUpTo(r, n)] + [Close(r)]);
            && r in end.readers && end.readers[r].Got?
            && end.readers[r].text == Contents(s.files, s.readers[r].file)
  {
    var actions :| s == Execute(editor, Initial(doc), actions);
    ReadersHoldPrefixes(editor, doc, actions);
    var read := s.readers[r];
    assert ReaderInPlace(s, read);
    var whole := Contents(s.files, read.file);
    n := |whole|;
    assert read.got + whole[|read.got|..n] == whole;
    ExecuteFirst(editor, s, ReadUpTo(r, n), [Close(r)]);
    ExecuteOne(editor, Step(editor, s, ReadUpTo(r, n)), Close(r));
  }
}
