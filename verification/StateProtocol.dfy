/** The lock, the temporary file and the rename around the state document, with readers that take no lock. */
module StateProtocol {
  import opened Wrappers
  import opened StateEdits

  type OpId = nat

  type ReaderId = nat

  /** How an edit, performed at some time, changes a document. */
  type Editor = (Edit, string, string) -> string

  datatype Phase =
    | Waiting
    | Locked
    | Loaded(body: string)
    | Writing(now: string, full: string, tmp: nat)
    | Renamed
    | Failed
    | Done(ok: bool)
    | Killed

  datatype Commit = Commit(op: OpId, edit: Edit, now: string)

  /** A reader keeps to the file it opened, if there was one. */
  datatype ReadPhase = Reading(file: Option<nat>, got: string) | Got(text: string)

  /**
   * `files` holds the contents of every file ever created, by number; `doc` is the one in place under
   * the document's name, `temps` those under temporary names. Then the lock, every operation's and
   * every reader's progress, and the renames performed so far.
   */
  datatype State = State(
    doc: Option<nat>,
    files: map<nat, string>,
    temps: set<nat>,
    holder: Option<OpId>,
    edits: map<OpId, Edit>,
    phases: map<OpId, Phase>,
    readers: map<ReaderId, ReadPhase>,
    log: seq<Commit>)

  /**
   * Writers hold an exclusive lock for a read-modify-write and rename a temporary file into place. Readers
   * open whatever file is in place and read it piece by piece, while writers go on. Operations may fail or
   * be killed at any point.
   */
  datatype Action =
    | Start(op: OpId, edit: Edit)
    | Lock(op: OpId)
    | Load(op: OpId)
    | Create(op: OpId, tmp: nat, now: string)
    | WriteUpTo(op: OpId, n: nat)
    | Rename(op: OpId)
    | Fail(op: OpId)
    | Unlock(op: OpId)
    | Kill(op: OpId)
    | Open(r: ReaderId)
    | ReadUpTo(r: ReaderId, n: nat)
    | Close(r: ReaderId)

  function Initial(doc: Option<string>): State {
    match doc
    case Some(text) => State(Some(0), map[0 := text], {}, None, map[], map[], map[], [])
    case None => State(None, map[], {}, None, map[], map[], map[], [])
  }

  function Contents(files: map<nat, string>, file: Option<nat>): string {
    if file.Some? && file.value in files then files[file.value] else ""
  }

  /** The document in place; a missing one reads as empty. */
  function Visible(s: State): string {
    Contents(s.files, s.doc)
  }

  predicate Holding(p: Phase) {
    p.Locked? || p.Loaded? || p.Writing? || p.Renamed? || p.Failed?
  }

  /** The body an operation edits once it holds the lock; a full write reads nothing. */
  function BodyOf(edit: Edit, p: Phase): Option<string> {
    if p.Loaded? then Some(p.body)
    else if p.Locked? && edit.Write? then Some("")
    else None
  }

  predicate Enabled(s: State, a: Action) {
    if a.Start? then a.op !in s.phases
    else if a.Open? then a.r !in s.readers
    else if a.ReadUpTo? then
      && a.r in s.readers && s.readers[a.r].Reading?
      && |s.readers[a.r].got| <= a.n <= |Contents(s.files, s.readers[a.r].file)|
    else if a.Close? then
      && a.r in s.readers && s.readers[a.r].Reading?
      && |s.readers[a.r].got| == |Contents(s.files, s.readers[a.r].file)|
    else
      && a.op in s.phases && a.op in s.edits
      && var p := s.phases[a.op];
         match a
         case Lock(_) => p.Waiting? && s.holder.None?
         case Load(_) => p.Locked?
         case Create(op, tmp, _) => BodyOf(s.edits[op], p).Some? && tmp !in s.files
         case WriteUpTo(_, n) => p.Writing? && p.tmp in s.files && |s.files[p.tmp]| <= n <= |p.full|
         case Rename(_) => p.Writing? && p.tmp in s.files && |s.files[p.tmp]| == |p.full|
         case Fail(_) => p.Waiting? || p.Locked? || p.Loaded? || p.Writing?
         case Unlock(_) => p.Renamed? || p.Failed?
         case Kill(_) => !p.Done? && !p.Killed?
  }

  /** One step; a step that is not possible leaves everything as it is. */
  function Step(editor: Editor, s: State, a: Action): State {
    if !Enabled(s, a) then s
    else match a
      case Start(op, edit) => s.(edits := s.edits[op := edit], phases := s.phases[op := Waiting])
      case Lock(op) => s.(holder := Some(op), phases := s.phases[op := Locked])
      case Load(op) => s.(phases := s.phases[op := Loaded(Visible(s))])
      case Create(op, tmp, now) =>
        var full := editor(s.edits[op], now, BodyOf(s.edits[op], s.phases[op]).value);
        s.(files := s.files[tmp := ""], temps := s.temps + {tmp}, phases := s.phases[op := Writing(now, full, tmp)])
      case WriteUpTo(op, n) =>
        s.(files := s.files[s.phases[op].tmp := s.phases[op].full[..n]])
      case Rename(op) =>
        var p := s.phases[op];
        s.(doc := Some(p.tmp), temps := s.temps - {p.tmp}, phases := s.phases[op := Renamed],
           log := s.log + [Commit(op, s.edits[op], p.now)])
      case Fail(op) =>
        if s.phases[op].Waiting? then s.(phases := s.phases[op := Done(false)])
        else s.(phases := s.phases[op := Failed])
      case Unlock(op) =>
        s.(holder := None, phases := s.phases[op := Done(s.phases[op].Renamed?)])
      case Kill(op) =>
        // The kernel drops the lock of a dead process.
        s.(holder := if s.holder == Some(op) then None else s.holder, phases := s.phases[op := Killed])
      case Open(r) => s.(readers := s.readers[r := Reading(s.doc, "")])
      case ReadUpTo(r, n) =>
        var read := s.readers[r];
        var more := Contents(s.files, read.file)[|read.got|..n];
        s.(readers := s.readers[r := Reading(read.file, read.got + more)])
      case Close(r) => s.(readers := s.readers[r := Got(s.readers[r].got)])
  }

  function Execute(editor: Editor, s: State, actions: seq<Action>): State {
    if actions == [] then s
    else Step(editor, Execute(editor, s, actions[..|actions| - 1]), actions[|actions| - 1])
  }

  ghost predicate Reachable(editor: Editor, doc: Option<string>, s: State) {
    exists actions :: s == Execute(editor, Initial(doc), actions)
  }

  /** The operations of `log`, one after the other, on the initial document. */
  function Replay(editor: Editor, initial: string, log: seq<Commit>): string {
    if log == [] then initial
    else
      var last := log[|log| - 1];
      editor(last.edit, last.now, Replay(editor, initial, log[..|log| - 1]))
  }

  // ----- The invariant

  /** Only the lock holder is between taking and releasing the lock. */
  ghost predicate Exclusive(s: State) {
    && s.phases.Keys == s.edits.Keys
    && (s.holder.Some? ==> s.holder.value in s.phases)
    && forall op | op in s.phases :: Holding(s.phases[op]) <==> s.holder == Some(op)
  }

  /** What an operation has computed is still about the document in place. */
  ghost predicate UpToDate(editor: Editor, s: State, op: OpId)
    requires op in s.phases && op in s.edits
  {
    var p := s.phases[op];
    && (p.Loaded? ==> p.body == Visible(s))
    && (p.Writing? ==>
          && p.full == editor(s.edits[op], p.now, Visible(s))
          && p.tmp in s.temps && p.tmp in s.files && s.files[p.tmp] <= p.full)
  }

  /** The document in place is a file of its own, which nobody writes to any more. */
  ghost predicate InPlace(s: State) {
    s.temps <= s.files.Keys && (s.doc.Some? ==> s.doc.value in s.files && s.doc.value !in s.temps)
  }

  ghost predicate Inv(editor: Editor, s: State, initial: string) {
    && Exclusive(s)
    && (forall op | op in s.phases :: UpToDate(editor, s, op))
    && InPlace(s)
    && Visible(s) == Replay(editor, initial, s.log)
  }

  /** A full write does not look at the document it replaces. */
  ghost predicate WritesIgnoreBody(editor: Editor) {
    forall content, now, b1, b2 :: editor(Write(content), now, b1) == editor(Write(content), now, b2)
  }

  lemma PrefixOfSameLength(a: string, b: string)
    requires a <= b && |a| == |b|
    ensures a == b
  {
  }

  lemma StepKeepsExclusive(editor: Editor, s: State, a: Action)
    requires Exclusive(s)
    ensures Exclusive(Step(editor, s, a))
  {
  }

  lemma StepKeepsInPlace(editor: Editor, s: State, a: Action)
    requires InPlace(s)
    ensures InPlace(Step(editor, s, a))
  {
  }

  /** The document changes by renames only. */
  lemma StepKeepsVisible(editor: Editor, s: State, a: Action, initial: string)
    requires Inv(editor, s, initial) && !a.Rename?
    ensures Visible(Step(editor, s, a)) == Visible(s) && Step(editor, s, a).log == s.log
  {
    if a.WriteUpTo? && Enabled(s, a) {
      assert UpToDate(editor, s, a.op);
    }
  }

  lemma RenameReplays(editor: Editor, s: State, a: Action, initial: string)
    requires Inv(editor, s, initial) && a.Rename? && Enabled(s, a)
    ensures Visible(Step(editor, s, a)) == Replay(editor, initial, Step(editor, s, a).log)
  {
    assert UpToDate(editor, s, a.op);
    PrefixOfSameLength(s.files[s.phases[a.op].tmp], s.phases[a.op].full);
    assert Step(editor, s, a).log[..|s.log|] == s.log;
  }

  predicate OfReader(a: Action) {
    a.Open? || a.ReadUpTo? || a.Close?
  }

  lemma ActorIsUpToDate(editor: Editor, s: State, a: Action, initial: string)
    requires WritesIgnoreBody(editor) && Inv(editor, s, initial) && Enabled(s, a) && !OfReader(a)
    ensures var s' := Step(editor, s, a);
            a.op in s'.phases && a.op in s'.edits && UpToDate(editor, s', a.op)
  {
    if a.op in s.phases {
      assert UpToDate(editor, s, a.op);
    }
    if !a.Rename? {
      StepKeepsVisible(editor, s, a, initial);
    }
  }

  lemma OthersAreUpToDate(editor: Editor, s: State, a: Action, initial: string, op: OpId)
    requires Inv(editor, s, initial) && Enabled(s, a) && op in s.phases && (OfReader(a) || op != a.op)
    ensures var s' := Step(editor, s, a);
            op in s'.phases && op in s'.edits && UpToDate(editor, s', op)
  {
    assert UpToDate(editor, s, op);
    assert Holding(s.phases[op]) <==> s.holder == Some(op);
    if !a.Rename? {
      StepKeepsVisible(editor, s, a, initial);
    }
  }

  lemma StepKeepsUpToDate(editor: Editor, s: State, a: Action, initial: string, op: OpId)
    requires WritesIgnoreBody(editor) && Inv(editor, s, initial) && op in Step(editor, s, a).phases
    ensures op in Step(editor, s, a).edits && UpToDate(editor, Step(editor, s, a), op)
  {
    if !Enabled(s, a) {
      assert UpToDate(editor, s, op);
    } else if OfReader(a) || op != a.op {
      assert op in s.phases;
      OthersAreUpToDate(editor, s, a, initial, op);
    } else {
      ActorIsUpToDate(editor, s, a, initial);
    }
  }

  lemma StepKeepsInv(editor: Editor, s: State, a: Action, initial: string)
    requires WritesIgnoreBody(editor) && Inv(editor, s, initial)
    ensures Inv(editor, Step(editor, s, a), initial)
  {
    StepKeepsExclusive(editor, s, a);
    StepKeepsInPlace(editor, s, a);
    forall op | op in Step(editor, s, a).phases ensures UpToDate(editor, Step(editor, s, a), op) {
      StepKeepsUpToDate(editor, s, a, initial, op);
    }
    if a.Rename? && Enabled(s, a) {
      RenameReplays(editor, s, a, initial);
    } else if !a.Rename? {
      StepKeepsVisible(editor, s, a, initial);
    }
  }

  /**
   * In every interleaving, with any failures and kills, the document is what the renames so far
   * give when performed one after the other, and the lock keeps operations apart.
   */
  lemma ReachableStatesAreConsistent(editor: Editor, doc: Option<string>, s: State)
    requires WritesIgnoreBody(editor) && Reachable(editor, doc, s)
    ensures Inv(editor, s, Visible(Initial(doc)))
  {
    var actions :| s == Execute(editor, Initial(doc), actions);
    RunKeepsInv(editor, doc, actions);
  }

  lemma {:induction false} RunKeepsInv(editor: Editor, doc: Option<string>, actions: seq<Action>)
    requires WritesIgnoreBody(editor)
    ensures Inv(editor, Execute(editor, Initial(doc), actions), Visible(Initial(doc)))
  {
    if actions != [] {
      var init := actions[..|actions| - 1];
      RunKeepsInv(editor, doc, init);
      StepKeepsInv(editor, Execute(editor, Initial(doc), init), actions[|actions| - 1], Visible(Initial(doc)));
    }
  }

  // ----- Histories

  lemma StepGrowsLog(editor: Editor, s: State, a: Action)
    ensures s.log <= Step(editor, s, a).log
  {
  }

  lemma {:induction false} LogGrows(editor: Editor, s: State, actions: seq<Action>)
    ensures s.log <= Execute(editor, s, actions).log
  {
    if actions != [] {
      var init := actions[..|actions| - 1];
      LogGrows(editor, s, init);
      StepGrowsLog(editor, Execute(editor, s, init), actions[|actions| - 1]);
    }
  }

  /** What a reader that opened the document in state `now` has so far. */
  ghost predicate ReadsFrom(now: State, s: State, r: ReaderId) {
    && r in s.readers
    && match s.readers[r]
       case Reading(file, got) =>
         && file == now.doc && got <= Visible(now) && Contents(s.files, file) == Visible(now)
         && (file.Some? ==> file.value in s.files && file.value !in s.temps)
       case Got(text) => text == Visible(now)
  }

  /** Files that no writer has are never written again. */
  lemma StepKeepsFile(editor: Editor, initial: string, s: State, a: Action, file: nat)
    requires Inv(editor, s, initial) && file in s.files && file !in s.temps
    ensures var s' := Step(editor, s, a);
            file in s'.files && file !in s'.temps && s'.files[file] == s.files[file]
  {
    if Enabled(s, a) && a.WriteUpTo? {
      assert UpToDate(editor, s, a.op);
    }
  }

  lemma StepKeepsReading(editor: Editor, initial: string, now: State, s: State, a: Action, r: ReaderId)
    requires Inv(editor, s, initial) && ReadsFrom(now, s, r)
    ensures ReadsFrom(now, Step(editor, s, a), r)
  {
    if s.readers[r].Reading? && s.readers[r].file.Some? {
      StepKeepsFile(editor, initial, s, a, s.readers[r].file.value);
    }
    if Enabled(s, a) && a.Close? && a.r == r {
      PrefixOfSameLength(s.readers[r].got, Visible(now));
    }
  }

  lemma {:induction false} RunKeepsReading(editor: Editor, initial: string, now: State, s: State,
                                           actions: seq<Action>, r: ReaderId)
    requires WritesIgnoreBody(editor) && Inv(editor, s, initial) && ReadsFrom(now, s, r)
    ensures Inv(editor, Execute(editor, s, actions), initial)
    ensures ReadsFrom(now, Execute(editor, s, actions), r)
  {
    if actions != [] {
      var init, last := actions[..|actions| - 1], actions[|actions| - 1];
      RunKeepsReading(editor, initial, now, s, init, r);
      StepKeepsReading(editor, initial, now, Execute(editor, s, init), last, r);
      StepKeepsInv(editor, Execute(editor, s, init), last, initial);
    }
  }

  /**
   * A reader that opens the document at some moment gets, whenever it has read to the end and whatever
   * was renamed into place meanwhile, the document of that moment: the result of the first so-many
   * operations of the final log, complete, and with everything that had taken effect by then.
   */
  lemma ReadsSeeCompleteDocuments(editor: Editor, doc: Option<string>, now: State, after: seq<Action>, r: ReaderId)
    requires WritesIgnoreBody(editor) && Reachable(editor, doc, now) && r !in now.readers
    ensures var end := Execute(editor, Step(editor, now, Open(r)), after);
            && now.log <= end.log && r in end.readers
            && (end.readers[r].Got? ==>
                  end.readers[r].text == Visible(now) == Replay(editor, Visible(Initial(doc)), end.log[..|now.log|]))
  {
    var begun := Step(editor, now, Open(r));
    ReachableStatesAreConsistent(editor, doc, now);
    StepKeepsInv(editor, now, Open(r), Visible(Initial(doc)));
    RunKeepsReading(editor, Visible(Initial(doc)), now, begun, after, r);
    LogGrows(editor, begun, after);
    assert Execute(editor, begun, after).log[..|now.log|] == now.log;
  }

  function CommitsOf(log: seq<Commit>, op: OpId): nat {
    if log == [] then 0
    else CommitsOf(log[..|log| - 1], op) + if log[|log| - 1].op == op then 1 else 0
  }

  /** How often an operation in this phase has taken effect; a killed one at most once. */
  ghost predicate CommitsMatch(p: Phase, commits: nat) {
    match p
    case Renamed => commits == 1
    case Done(ok) => commits == if ok then 1 else 0
    case Killed => commits <= 1
    case _ => commits == 0
  }

  /** The outcome reported to the caller is the truth about the log. */
  ghost predicate Truthful(s: State) {
    && s.phases.Keys == s.edits.Keys
    && (forall op | op in s.phases :: CommitsMatch(s.phases[op], CommitsOf(s.log, op)))
    && EditsMatch(s)
  }

  ghost predicate EditsMatch(s: State) {
    forall c | c in s.log :: c.op in s.edits && c.edit == s.edits[c.op]
  }

  lemma StepKeepsEdits(editor: Editor, s: State, a: Action)
    requires EditsMatch(s) && s.phases.Keys == s.edits.Keys
    ensures EditsMatch(Step(editor, s, a)) && Step(editor, s, a).phases.Keys == Step(editor, s, a).edits.Keys
  {
  }

  lemma {:induction false} NoCommitsOf(log: seq<Commit>, op: OpId)
    requires forall c | c in log :: c.op != op
    ensures CommitsOf(log, op) == 0
  {
    if log != [] {
      NoCommitsOf(log[..|log| - 1], op);
    }
  }

  lemma OneMoreCommit(log: seq<Commit>, c: Commit, op: OpId)
    ensures CommitsOf(log + [c], op) == CommitsOf(log, op) + if c.op == op then 1 else 0
  {
    assert (log + [c])[..|log|] == log;
  }

  /** One step adds one commit of the acting operation if it renames, and none otherwise. */
  lemma StepCommits(editor: Editor, s: State, a: Action, op: OpId)
    requires Enabled(s, a)
    ensures CommitsOf(Step(editor, s, a).log, op) == CommitsOf(s.log, op) + if a.Rename? && a.op == op then 1 else 0
  {
    if a.Rename? {
      OneMoreCommit(s.log, Step(editor, s, a).log[|s.log|], op);
    }
  }

  lemma OthersKeepPhase(editor: Editor, s: State, a: Action, op: OpId)
    requires Enabled(s, a) && op in Step(editor, s, a).phases && (OfReader(a) || op != a.op)
    ensures op in s.phases && Step(editor, s, a).phases[op] == s.phases[op]
  {
  }

  lemma ActorKeepsMatch(editor: Editor, s: State, a: Action)
    requires Truthful(s) && Enabled(s, a) && !OfReader(a)
    ensures a.op in Step(editor, s, a).phases
    ensures CommitsMatch(Step(editor, s, a).phases[a.op], CommitsOf(s.log, a.op) + if a.Rename? then 1 else 0)
  {
    if a.Start? {
      NoCommitsOf(s.log, a.op);
    } else {
      assert CommitsMatch(s.phases[a.op], CommitsOf(s.log, a.op));
    }
  }

  lemma StepKeepsMatch(editor: Editor, s: State, a: Action, op: OpId)
    requires Truthful(s) && Enabled(s, a) && op in Step(editor, s, a).phases
    ensures CommitsMatch(Step(editor, s, a).phases[op], CommitsOf(Step(editor, s, a).log, op))
  {
    StepCommits(editor, s, a, op);
    if OfReader(a) || op != a.op {
      OthersKeepPhase(editor, s, a, op);
      assert CommitsMatch(s.phases[op], CommitsOf(s.log, op));
    } else {
      ActorKeepsMatch(editor, s, a);
    }
  }

  lemma StepKeepsTruthful(editor: Editor, s: State, a: Action)
    requires Truthful(s)
    ensures Truthful(Step(editor, s, a))
  {
    StepKeepsEdits(editor, s, a);
    if Enabled(s, a) {
      var s' := Step(editor, s, a);
      forall op | op in s'.phases ensures CommitsMatch(s'.phases[op], CommitsOf(s'.log, op)) {
        StepKeepsMatch(editor, s, a, op);
      }
    }
  }

  /**
   * An operation that reported success took effect exactly once, with its own edit; one that
   * reported failure not at all; one that was killed at most once.
   */
  lemma OutcomesAreTruthful(editor: Editor, doc: Option<string>, s: State)
    requires Reachable(editor, doc, s)
    ensures Truthful(s)
  {
    var actions :| s == Execute(editor, Initial(doc), actions);
    RunKeepsTruthful(editor, doc, actions);
  }

  lemma {:induction false} RunKeepsTruthful(editor: Editor, doc: Option<string>, actions: seq<Action>)
    ensures Truthful(Execute(editor, Initial(doc), actions))
  {
    if actions != [] {
      var init := actions[..|actions| - 1];
      RunKeepsTruthful(editor, doc, init);
      StepKeepsTruthful(editor, Execute(editor, Initial(doc), init), actions[|actions| - 1]);
    }
  }

  /** An operation that had reported success before another one started comes before it in the log. */
  lemma RealTimeOrder(editor: Editor, doc: Option<string>, now: State, after: seq<Action>, first: OpId, second: OpId)
    requires Reachable(editor, doc, now)
    requires first in now.phases && now.phases[first] == Done(true) && second !in now.phases
    ensures var end := Execute(editor, now, after);
            && now.log <= end.log
            && CommitsOf(end.log[..|now.log|], first) == 1 && CommitsOf(end.log[..|now.log|], second) == 0
  {
    OutcomesAreTruthful(editor, doc, now);
    assert CommitsMatch(now.phases[first], CommitsOf(now.log, first));
    NoCommitsOf(now.log, second);
    LogGrows(editor, now, after);
    assert Execute(editor, now, after).log[..|now.log|] == now.log;
  }

  lemma StepKeepsOutcome(editor: Editor, s: State, a: Action, op: OpId)
    requires op in s.phases && (s.phases[op].Done? || s.phases[op].Killed?)
    ensures op in Step(editor, s, a).phases && Step(editor, s, a).phases[op] == s.phases[op]
  {
  }

  /** What an operation has reported stays so, and one that was killed does nothing any more. */
  lemma {:induction false} OutcomesAreFinal(editor: Editor, s: State, actions: seq<Action>, op: OpId)
    requires op in s.phases && (s.phases[op].Done? || s.phases[op].Killed?)
    ensures var end := Execute(editor, s, actions); op in end.phases && end.phases[op] == s.phases[op]
  {
    if actions != [] {
      var init := actions[..|actions| - 1];
      OutcomesAreFinal(editor, s, init, op);
      StepKeepsOutcome(editor, Execute(editor, s, init), actions[|actions| - 1], op);
    }
  }
}
