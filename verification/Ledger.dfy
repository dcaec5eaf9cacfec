/** The cleanup ledger: what each owner created is recorded before it is created, and kept until it
    is gone. The steps of recording, removing and disposing, with a crash after any of them. */
module Ledger {

  type Owner = string

  datatype Store = Claude | Codex | Worktree | Scratch

  datatype Artifact =
    | Process(pid: nat)
    | ProcessesIn(dir: string)
    | Files(store: Store, path: string)

  datatype Held = Held(owner: Owner, artifact: Artifact)

  datatype Event =
    | Recorded(owner: Owner, artifact: Artifact)
    | Removed(owner: Owner, artifacts: seq<Artifact>)
    | Requested(owner: Owner)
    | Completed(owner: Owner)

  type Log = seq<Event>

  /** What the ledger knows: who holds what, and who is being disposed of. */
  datatype Known = Known(held: set<Held>, disposing: set<Owner>)

  function HeldOf(owner: Owner, artifacts: seq<Artifact>): set<Held> {
    set a | a in artifacts :: Held(owner, a)
  }

  function Noted(known: Known, e: Event): Known {
    match e
    case Recorded(owner, artifact) => known.(held := known.held + {Held(owner, artifact)})
    case Removed(owner, artifacts) => known.(held := known.held - HeldOf(owner, artifacts))
    case Requested(owner) => known.(disposing := known.disposing + {owner})
    case Completed(owner) => Known((set h | h in known.held && h.owner != owner), known.disposing - {owner})
  }

  /** What loading the stream gives. */
  function Reloaded(log: Log): Known {
    if log == [] then Known({}, {}) else Noted(Reloaded(log[..|log| - 1]), log[|log| - 1])
  }

  /** A removal under way: what it was asked to remove, what of that is gone or given up for gone,
      and whether that has been stored. */
  datatype Removal = Removal(owner: Owner, asked: set<Held>, gone: seq<Artifact>, stored: bool)

  /** The log, what memory knows, the operations under way, and the world: which artifacts exist
      and which disposals were asked for with something left. */
  datatype System = System(
    log: Log, held: set<Held>, disposing: set<Owner>,
    recordings: map<nat, Held>, removals: map<nat, Removal>, marking: set<Owner>,
    present: set<Held>, requested: set<Owner>)

  datatype Step =
    | StoreRecord(op: nat, h: Held)
    | KeepRecord(op: nat)
    | Create(h: Held)
    | Vanish(h: Held)
    | StartRemoval(op: nat, owner: Owner, asked: set<Held>)
    | RemoveOne(op: nat, artifact: Artifact, succeeds: bool)
    | StoreRemoval(op: nat)
    | KeepRemoval(op: nat)
    | StoreRequest(owner: Owner)
    | KeepRequest(owner: Owner)
    | EndDisposal(owner: Owner)
    | Crash

  ghost predicate BeingRecorded(s: System, h: Held) {
    exists op :: op in s.recordings && s.recordings[op] == h
  }

  ghost predicate BeingRemoved(s: System, h: Held) {
    exists op :: op in s.removals && h in s.removals[op].asked
  }

  /** The removal gave it up for gone. */
  ghost predicate GoneBy(s: System, op: nat, h: Held) {
    op in s.removals && h in HeldOf(s.removals[op].owner, s.removals[op].gone)
  }

  /** Gone and stored as gone, but still in memory. */
  ghost predicate Acknowledged(s: System, h: Held) {
    exists op :: op in s.removals && s.removals[op].stored && GoneBy(s, op, h)
  }

  /** When a step can happen: recording an artifact and removing it do not overlap. An artifact may
      be recorded twice at once, and a removal may be asked for what another one removes or has
      removed since it was listed. */
  ghost predicate Can(s: System, step: Step) {
    match step
    case StoreRecord(op, h) => op !in s.recordings && !BeingRemoved(s, h)
    case KeepRecord(op) => op in s.recordings
    case Create(h) => h in s.held && !BeingRemoved(s, h)
    case Vanish(h) => true
    case StartRemoval(op, owner, asked) =>
      op !in s.removals && (forall h :: h in asked ==> h.owner == owner && !BeingRecorded(s, h))
    case RemoveOne(op, artifact, _) =>
      op in s.removals && !s.removals[op].stored && Held(s.removals[op].owner, artifact) in s.removals[op].asked
    case StoreRemoval(op) => op in s.removals && !s.removals[op].stored
    case KeepRemoval(op) => op in s.removals && s.removals[op].stored
    case StoreRequest(owner) => true
    case KeepRequest(owner) => owner in s.marking
    case EndDisposal(owner) => forall h :: h in s.held ==> h.owner != owner
    case Crash => true
  }

  function Taken(s: System, step: Step): System {
    match step
    // Recording: durably first, then in memory, and only then is the artifact created.
    case StoreRecord(op, h) =>
      s.(log := s.log + [Recorded(h.owner, h.artifact)], recordings := s.recordings[op := h])
    case KeepRecord(op) =>
      if op in s.recordings then s.(held := s.held + {s.recordings[op]}, recordings := s.recordings - {op}) else s
    case Create(h) => s.(present := s.present + {h})
    case Vanish(h) => s.(present := s.present - {h})
    // Removing: a process counts as gone whether or not ending it succeeds.
    case StartRemoval(op, owner, asked) => s.(removals := s.removals[op := Removal(owner, asked, [], false)])
    case RemoveOne(op, artifact, succeeds) =>
      if op !in s.removals then s
      else
        var r := s.removals[op];
        s.(
          present := if succeeds then s.present - {Held(r.owner, artifact)} else s.present,
          removals :=
            if succeeds || artifact.Process? then s.removals[op := r.(gone := r.gone + [artifact])] else s.removals)
    case StoreRemoval(op) =>
      if op !in s.removals then s
      else
        var r := s.removals[op];
        s.(log := s.log + [Removed(r.owner, r.gone)], removals := s.removals[op := r.(stored := true)])
    case KeepRemoval(op) =>
      if op !in s.removals then s
      else s.(held := s.held - HeldOf(s.removals[op].owner, s.removals[op].gone), removals := s.removals - {op})
    // Disposing.
    case StoreRequest(owner) =>
      if owner in s.disposing then s.(requested := s.requested + {owner})
      else s.(log := s.log + [Requested(owner)], marking := s.marking + {owner}, requested := s.requested + {owner})
    case KeepRequest(owner) => s.(disposing := s.disposing + {owner}, marking := s.marking - {owner})
    case EndDisposal(owner) => s.(disposing := s.disposing - {owner}, requested := s.requested - {owner})
    // A crash: memory is loaded again, what was under way is forgotten, the world stays.
    case Crash =>
      var known := Reloaded(s.log);
      s.(held := known.held, disposing := known.disposing, recordings := map[], removals := map[], marking := {})
  }

  // What every step keeps.

  /** What the log holds is what memory holds, but for what is under way. */
  ghost predicate Tracks(s: System) {
    forall h :: h in Reloaded(s.log).held <==> (h in s.held || BeingRecorded(s, h)) && !Acknowledged(s, h)
  }

  ghost predicate Apart(s: System) {
    forall h :: BeingRecorded(s, h) ==> !BeingRemoved(s, h)
  }

  /** A removal gives up for gone only what it was asked to, and what is no process is gone. */
  ghost predicate Honest(s: System) {
    forall op, h :: GoneBy(s, op, h) ==>
      h in s.removals[op].asked && (!h.artifact.Process? ==> h !in s.present)
  }

  /** Whatever exists is recorded, but for processes. */
  ghost predicate Covers(s: System) {
    forall h :: h in s.present && !h.artifact.Process? ==> h in Reloaded(s.log).held
  }

  /** A disposal asked for with something left is marked, in the log and in memory. */
  ghost predicate Marks(s: System) {
    && s.requested <= Reloaded(s.log).disposing && s.requested <= s.disposing + s.marking
    && s.disposing <= Reloaded(s.log).disposing && s.marking <= Reloaded(s.log).disposing
  }

  ghost predicate Safe(s: System) {
    Tracks(s) && Apart(s) && Honest(s) && Covers(s) && Marks(s)
  }

  lemma OneMore(log: Log, e: Event)
    ensures Reloaded(log + [e]) == Noted(Reloaded(log), e)
  {
    assert (log + [e])[..|log|] == log;
  }

  /** What the log holds after a step. */
  lemma ReloadedAfter(s: System, step: Step)
    requires Can(s, step)
    ensures var before, after := Reloaded(s.log), Reloaded(Taken(s, step).log);
      match step
      case StoreRecord(_, h) => after == before.(held := before.held + {h})
      case StoreRemoval(op) => after == before.(held := before.held - HeldOf(s.removals[op].owner, s.removals[op].gone))
      case StoreRequest(owner) => after == if owner in s.disposing then before else before.(disposing := before.disposing + {owner})
      case _ => after == before
  {
    match step {
      case StoreRecord(_, h) => OneMore(s.log, Recorded(h.owner, h.artifact));
      case StoreRemoval(op) => OneMore(s.log, Removed(s.removals[op].owner, s.removals[op].gone));
      case StoreRequest(owner) => OneMore(s.log, Requested(owner));
      case _ =>
    }
  }

  lemma KeepsMarks(s: System, step: Step)
    requires Marks(s) && Can(s, step)
    ensures Marks(Taken(s, step))
  {
    ReloadedAfter(s, step);
    hide Reloaded;
  }

  lemma KeepsApart(s: System, step: Step)
    requires Apart(s) && Can(s, step)
    ensures Apart(Taken(s, step))
  {
    hide Reloaded, BeingRecorded, BeingRemoved;
    forall h ensures BeingRecorded(Taken(s, step), h) ==> !BeingRemoved(Taken(s, step), h) {
      RecordingAfter(s, step, h);
      RemovingAfter(s, step, h);
    }
  }

  /** What is being recorded after a step was before, or is recorded by it. */
  lemma RecordingAfter(s: System, step: Step, h: Held)
    requires Can(s, step)
    ensures BeingRecorded(Taken(s, step), h) ==> BeingRecorded(s, h) || (step.StoreRecord? && step.h == h)
    ensures BeingRecorded(s, h) ==>
      || BeingRecorded(Taken(s, step), h) || step.Crash?
      || (step.KeepRecord? && s.recordings[step.op] == h)
    ensures step.StoreRecord? && step.h == h ==> BeingRecorded(Taken(s, step), h)
  {
    hide Reloaded, BeingRemoved;
    var after := Taken(s, step);
    if BeingRecorded(s, h) {
      var op :| op in s.recordings && s.recordings[op] == h;
      assert op in after.recordings ==> after.recordings[op] == h;
    }
    if BeingRecorded(after, h) {
      var op :| op in after.recordings && after.recordings[op] == h;
      assert op in s.recordings || (step.StoreRecord? && step.h == h);
    }
    if step.StoreRecord? && step.h == h {
      assert after.recordings[step.op] == h;
    }
  }

  lemma RemovingAfter(s: System, step: Step, h: Held)
    requires Can(s, step)
    ensures BeingRemoved(Taken(s, step), h) ==> BeingRemoved(s, h) || (step.StartRemoval? && h in step.asked)
  {
    hide Reloaded, BeingRecorded;
    var after := Taken(s, step);
    if BeingRemoved(after, h) {
      var op :| op in after.removals && h in after.removals[op].asked;
      assert (step.StartRemoval? && op == step.op) || (op in s.removals && s.removals[op].asked == after.removals[op].asked);
    }
  }

  /** What is stored as gone after a step was before, or is stored by it. */
  lemma AcknowledgedAfter(s: System, step: Step, h: Held)
    requires Can(s, step)
    ensures var r := if step.StoreRemoval? || step.KeepRemoval? then HeldOf(s.removals[step.op].owner, s.removals[step.op].gone) else {};
      && (Acknowledged(Taken(s, step), h) ==> Acknowledged(s, h) || (step.StoreRemoval? && h in r))
      && (Acknowledged(s, h) ==> Acknowledged(Taken(s, step), h) || step.Crash? || (step.KeepRemoval? && h in r))
      && (step.StoreRemoval? && h in r ==> Acknowledged(Taken(s, step), h))
      && (step.KeepRemoval? && h in r ==> Acknowledged(s, h))
  {
    hide Reloaded, BeingRecorded, BeingRemoved, HeldOf;
    var after := Taken(s, step);
    if Acknowledged(s, h) {
      var op :| op in s.removals && s.removals[op].stored && GoneBy(s, op, h);
      assert op in after.removals ==> after.removals[op] == s.removals[op];
    }
    if Acknowledged(after, h) {
      var op :| op in after.removals && after.removals[op].stored && GoneBy(after, op, h);
      assert op in s.removals;
    }
    if step.StoreRemoval? {
      assert after.removals[step.op].stored;
    }
  }

  lemma KeepsHonest(s: System, step: Step)
    requires Honest(s) && Can(s, step)
    ensures Honest(Taken(s, step))
  {
    hide Reloaded;
    var after := Taken(s, step);
    forall op, h | GoneBy(after, op, h)
      ensures h in after.removals[op].asked && (!h.artifact.Process? ==> h !in after.present)
    {
      if step.RemoveOne? {
        HonestRemoval(s, step, op, h);
      } else {
        HonestStill(s, step, op, h);
      }
    }
  }

  lemma HonestRemoval(s: System, step: Step, op: nat, h: Held)
    requires Honest(s) && Can(s, step) && step.RemoveOne?
    requires GoneBy(Taken(s, step), op, h)
    ensures var after := Taken(s, step); h in after.removals[op].asked && (!h.artifact.Process? ==> h !in after.present)
  {
    var r := s.removals[op];
    assert GoneBy(s, op, h) || (op == step.op && h == Held(r.owner, step.artifact));
  }

  lemma HonestStill(s: System, step: Step, op: nat, h: Held)
    requires Honest(s) && Can(s, step) && !step.RemoveOne?
    requires GoneBy(Taken(s, step), op, h)
    ensures var after := Taken(s, step); h in after.removals[op].asked && (!h.artifact.Process? ==> h !in after.present)
  {
    hide Reloaded;
    if !step.StartRemoval? || op != step.op {
      assert GoneBy(s, op, h);
      assert step.Create? && step.h == h ==> BeingRemoved(s, h);
    }
  }

  lemma KeepsCovers(s: System, step: Step)
    requires Covers(s) && Tracks(s) && Honest(s) && Can(s, step)
    ensures Covers(Taken(s, step))
  {
    ReloadedAfter(s, step);
    hide Reloaded;
  }

  lemma KeepsTracks(s: System, step: Step)
    requires Tracks(s) && Apart(s) && Honest(s) && Can(s, step)
    ensures Tracks(Taken(s, step))
  {
    ReloadedAfter(s, step);
    forall h ensures h in Reloaded(Taken(s, step).log).held
      <==> (h in Taken(s, step).held || BeingRecorded(Taken(s, step), h)) && !Acknowledged(Taken(s, step), h)
    {
      TracksOne(s, step, h);
    }
  }

  lemma TracksOne(s: System, step: Step, h: Held)
    requires Tracks(s) && Apart(s) && Honest(s) && Can(s, step)
    ensures h in Reloaded(Taken(s, step).log).held
      <==> (h in Taken(s, step).held || BeingRecorded(Taken(s, step), h)) && !Acknowledged(Taken(s, step), h)
  {
    ReloadedAfter(s, step);
    RecordingAfter(s, step, h);
    AcknowledgedAfter(s, step, h);
    AcknowledgedIsRemoved(s, h);
    assert h in Reloaded(s.log).held <==> (h in s.held || BeingRecorded(s, h)) && !Acknowledged(s, h);
    hide Reloaded, BeingRecorded, Acknowledged, Tracks;
    if step.Crash? {
      NothingUnderWay(s, h);
    }
    assert BeingRecorded(s, h) ==> !BeingRemoved(s, h);
  }

  lemma AcknowledgedIsRemoved(s: System, h: Held)
    requires Honest(s)
    ensures Acknowledged(s, h) ==> BeingRemoved(s, h)
  {
  }

  lemma NothingUnderWay(s: System, h: Held)
    ensures !BeingRecorded(Taken(s, Crash), h) && !Acknowledged(Taken(s, Crash), h)
  {
  }

  /** A step keeps the system safe. */
  lemma StepKeeps(s: System, step: Step)
    requires Safe(s) && Can(s, step)
    ensures Safe(Taken(s, step))
  {
    hide Tracks, Apart, Honest, Covers, Marks, Can, Taken;
    KeepsMarks(s, step);
    KeepsApart(s, step);
    KeepsHonest(s, step);
    KeepsCovers(s, step);
    KeepsTracks(s, step);
  }

  // Any run.

  /** A daemon that just started: memory loaded from the log, nothing under way, and everything
      there is, but for processes, recorded. */
  ghost predicate Starts(s: System) {
    && Reloaded(s.log) == Known(s.held, s.disposing) && s.recordings == map[] && s.removals == map[] && s.marking == {}
    && s.requested <= s.disposing && Covers(s)
  }

  ghost predicate IsRun(states: seq<System>, steps: seq<Step>) {
    && |states| == |steps| + 1 && Starts(states[0])
    && forall i :: 0 <= i < |steps| ==> Can(states[i], steps[i]) && states[i + 1] == Taken(states[i], steps[i])
  }

  lemma {:induction false} RunIsSafe(states: seq<System>, steps: seq<Step>, i: nat)
    requires IsRun(states, steps) && i < |states|
    ensures Safe(states[i])
  {
    hide Can, Taken;
    if i == 0 {
      assert forall h :: !BeingRecorded(states[0], h) && !Acknowledged(states[0], h);
    } else {
      RunIsSafe(states, steps, i - 1);
      StepKeeps(states[i - 1], steps[i - 1]);
    }
  }

  /** Whatever was under way when the daemon crashes: what it loads holds every artifact that still
      exists, processes aside, and marks every disposal asked for with something left. It holds what
      memory held and what was just recorded, but for what was stored as gone; with no recording or
      removal under way, exactly what memory held. */
  lemma CrashLosesNothing(states: seq<System>, steps: seq<Step>, i: nat)
    requires IsRun(states, steps) && i < |states|
    ensures var before, after := states[i], Taken(states[i], Crash);
      && (forall h :: h in before.present && !h.artifact.Process? ==> h in after.held)
      && before.requested <= after.disposing && before.disposing <= after.disposing
      && (forall h :: h in after.held <==> (h in before.held || BeingRecorded(before, h)) && !Acknowledged(before, h))
      && (before.recordings == map[] && before.removals == map[] ==> after.held == before.held)
      && after == System(before.log, after.held, after.disposing, map[], map[], {}, before.present, before.requested)
  {
    RunIsSafe(states, steps, i);
    hide Reloaded;
    var s := states[i];
    if s.recordings == map[] && s.removals == map[] {
      assert forall h :: !BeingRecorded(s, h) && !Acknowledged(s, h);
    }
  }

  /** An owner is marked after a reload exactly when its disposal was requested and not completed
      since. Nothing the ledger stores now completes one, so the mark stays. */
  lemma {:induction false} MarkedUntilCompleted(log: Log, owner: Owner)
    ensures owner in Reloaded(log).disposing
      <==> exists i :: RequestedSince(log, owner, i)
  {
    if log != [] {
      var before, last := log[..|log| - 1], log[|log| - 1];
      MarkedUntilCompleted(before, owner);
      hide Reloaded;
      MarkedByOne(before, last, owner);
      assert before + [last] == log;
    }
  }

  ghost predicate RequestedSince(log: Log, owner: Owner, i: int) {
    0 <= i < |log| && log[i] == Requested(owner) && forall j :: i < j < |log| ==> log[j] != Completed(owner)
  }

  lemma MarkedByOne(before: Log, last: Event, owner: Owner)
    requires owner in Reloaded(before).disposing <==> exists i :: RequestedSince(before, owner, i)
    ensures owner in Reloaded(before + [last]).disposing <==> exists i :: RequestedSince(before + [last], owner, i)
  {
    OneMore(before, last);
    hide Reloaded;
    var log := before + [last];
    assert forall i :: 0 <= i < |before| ==> log[i] == before[i];
    if last == Requested(owner) {
      assert RequestedSince(log, owner, |before|);
    } else if last != Completed(owner) {
      assert forall i :: RequestedSince(log, owner, i) <==> RequestedSince(before, owner, i);
    } else {
      assert log[|before|] == Completed(owner);
    }
  }

  /** So an ended disposal is marked again after a crash, where memory has forgotten it. */
  lemma EndedIsMarkedAgain(s: System, owner: Owner)
    requires Safe(s) && Can(s, EndDisposal(owner)) && owner in s.disposing
    ensures var ended := Taken(s, EndDisposal(owner));
      owner !in ended.disposing && owner in Taken(ended, Crash).disposing
  {
    hide Reloaded;
  }

  /** The log marks the owner, and memory neither does nor is about to. */
  predicate Forgotten(s: System, owner: Owner) {
    owner in Reloaded(s.log).disposing && owner !in s.disposing && owner !in s.marking
  }

  predicate Ends(s: System, step: Step, owner: Owner) {
    step == EndDisposal(owner) && owner in s.disposing && owner !in s.marking
  }

  predicate MarksAgain(step: Step, owner: Owner) {
    step == StoreRequest(owner) || step == KeepRequest(owner) || step.Crash?
  }

  lemma ForgottenAfter(s: System, step: Step, owner: Owner)
    requires Safe(s) && Can(s, step)
    ensures Forgotten(Taken(s, step), owner)
      <==> Ends(s, step, owner) || (Forgotten(s, owner) && !MarksAgain(step, owner))
  {
    ReloadedAfter(s, step);
    hide Reloaded, Tracks, Apart, Honest, Covers;
  }

  /** Step `j` ended the owner's disposal, and no step from then to `i` marked it again. */
  ghost predicate EndedAt(states: seq<System>, steps: seq<Step>, owner: Owner, j: nat, i: nat)
    requires i <= |steps| < |states|
  {
    j < i && Ends(states[j], steps[j], owner) && forall k :: j < k < i ==> !MarksAgain(steps[k], owner)
  }

  ghost predicate EndedSince(states: seq<System>, steps: seq<Step>, owner: Owner, i: nat)
    requires i <= |steps| < |states|
  {
    exists j: nat :: EndedAt(states, steps, owner, j, i)
  }

  /** What a reload marks beyond memory at any moment of a run: exactly the owners whose disposal
      ended and was not asked for again since, without a crash in between. */
  lemma {:induction false} MarkedBeyondMemory(states: seq<System>, steps: seq<Step>, i: nat, owner: Owner)
    requires IsRun(states, steps) && i < |states|
    ensures Forgotten(states[i], owner) <==> EndedSince(states, steps, owner, i)
  {
    hide Can, Reloaded, Safe;
    if i > 0 {
      MarkedBeyondMemory(states, steps, i - 1, owner);
      RunIsSafe(states, steps, i - 1);
      ForgottenAfter(states[i - 1], steps[i - 1], owner);
      hide Taken, Forgotten, EndedSince;
      EndedOneMore(states, steps, owner, i - 1);
    }
  }

  lemma EndedOneMore(states: seq<System>, steps: seq<Step>, owner: Owner, i: nat)
    requires i < |steps| < |states|
    ensures EndedSince(states, steps, owner, i + 1)
      <==> Ends(states[i], steps[i], owner) || (EndedSince(states, steps, owner, i) && !MarksAgain(steps[i], owner))
  {
    hide Ends, MarksAgain;
    if Ends(states[i], steps[i], owner) {
      assert EndedAt(states, steps, owner, i, i + 1);
    }
    var next := i + 1;
    if EndedSince(states, steps, owner, next) {
      var j: nat :| EndedAt(states, steps, owner, j, next);
      assert j < i ==> EndedAt(states, steps, owner, j, i);
    }
    if EndedSince(states, steps, owner, i) {
      var j: nat :| EndedAt(states, steps, owner, j, i);
      assert !MarksAgain(steps[i], owner) ==> EndedAt(states, steps, owner, j, i + 1);
    }
  }

  /** So a crash leaves marked who is marked or about to be, and whose disposal ended like that. */
  lemma CrashMarks(states: seq<System>, steps: seq<Step>, i: nat, owner: Owner)
    requires IsRun(states, steps) && i < |states|
    ensures owner in Taken(states[i], Crash).disposing
      <==> owner in states[i].disposing + states[i].marking || EndedSince(states, steps, owner, i)
  {
    RunIsSafe(states, steps, i);
    MarkedBeyondMemory(states, steps, i, owner);
    hide Can, Tracks, Apart, Honest, Covers, Reloaded, IsRun, EndedSince;
  }

  /** The step acknowledges the artifact in this removal: it ended, or it is a process. */
  predicate Acknowledges(s: System, step: Step, op: nat, h: Held) {
    && step.RemoveOne? && step.op == op && op in s.removals && s.removals[op].owner == h.owner
    && step.artifact == h.artifact && (step.succeeds || h.artifact.Process?)
  }

  /** The removal starts, is over or is forgotten. */
  predicate Clears(step: Step, op: nat) {
    || (step.StartRemoval? && step.op == op) || (step.KeepRemoval? && step.op == op) || step.Crash?
  }

  lemma GoneAfter(s: System, step: Step, op: nat, h: Held)
    requires Can(s, step)
    ensures GoneBy(Taken(s, step), op, h) <==> Acknowledges(s, step, op, h) || (GoneBy(s, op, h) && !Clears(step, op))
  {
    hide Reloaded, BeingRecorded, BeingRemoved;
    if step.RemoveOne? && step.op == op && (step.succeeds || step.artifact.Process?) {
      var r := s.removals[op];
      assert forall a :: a in r.gone + [step.artifact] <==> a in r.gone || a == step.artifact;
    }
  }

  ghost predicate AcknowledgedAt(states: seq<System>, steps: seq<Step>, op: nat, h: Held, j: nat, i: nat)
    requires i <= |steps| < |states|
  {
    j < i && Acknowledges(states[j], steps[j], op, h) && forall k :: j < k < i ==> !Clears(steps[k], op)
  }

  ghost predicate AcknowledgedBy(states: seq<System>, steps: seq<Step>, op: nat, h: Held, i: nat)
    requires i <= |steps| < |states|
  {
    exists j: nat :: AcknowledgedAt(states, steps, op, h, j, i)
  }

  /** At any moment of a run, what a removal under way will strike is exactly what it ended, and the
      processes it tried to, since it started. */
  lemma {:induction false} StrikesWhatEnded(states: seq<System>, steps: seq<Step>, i: nat, op: nat, h: Held)
    requires IsRun(states, steps) && i < |states|
    ensures GoneBy(states[i], op, h) <==> AcknowledgedBy(states, steps, op, h, i)
  {
    hide Reloaded, Can, GoneBy, Acknowledges, Clears;
    if i > 0 {
      hide Taken;
      StrikesWhatEnded(states, steps, i - 1, op, h);
      GoneAfter(states[i - 1], steps[i - 1], op, h);
      StrikesOneMore(states, steps, op, h, i - 1);
    } else {
      NothingStruck(states[0], op, h);
    }
  }

  lemma NothingStruck(s: System, op: nat, h: Held)
    requires Starts(s)
    ensures !GoneBy(s, op, h)
  {
  }

  lemma StrikesOneMore(states: seq<System>, steps: seq<Step>, op: nat, h: Held, i: nat)
    requires i < |steps| < |states|
    ensures AcknowledgedBy(states, steps, op, h, i + 1)
      <==> Acknowledges(states[i], steps[i], op, h) || (AcknowledgedBy(states, steps, op, h, i) && !Clears(steps[i], op))
  {
    hide Acknowledges, Clears;
    if Acknowledges(states[i], steps[i], op, h) {
      assert AcknowledgedAt(states, steps, op, h, i, i + 1);
    }
    var next := i + 1;
    if AcknowledgedBy(states, steps, op, h, next) {
      var j: nat :| AcknowledgedAt(states, steps, op, h, j, next);
      assert j < i ==> AcknowledgedAt(states, steps, op, h, j, i);
    }
    if AcknowledgedBy(states, steps, op, h, i) {
      var j: nat :| AcknowledgedAt(states, steps, op, h, j, i);
      assert !Clears(steps[i], op) ==> AcknowledgedAt(states, steps, op, h, j, i + 1);
    }
  }

  ghost predicate AskedAt(steps: seq<Step>, owner: Owner, j: nat, i: nat)
    requires i <= |steps|
  {
    j < i && steps[j] == StoreRequest(owner) && forall k :: j < k < i ==> steps[k] != EndDisposal(owner)
  }

  ghost predicate AskedFor(steps: seq<Step>, owner: Owner, i: nat)
    requires i <= |steps|
  {
    exists j: nat :: AskedAt(steps, owner, j, i)
  }

  ghost predicate NoneEnds(steps: seq<Step>, owner: Owner, i: nat)
    requires i <= |steps|
  {
    forall k :: 0 <= k < i ==> steps[k] != EndDisposal(owner)
  }

  /** What counts as asked for is what a disposal was requested for, at the start or since, and none
      ended since. */
  lemma {:induction false} AskedSince(states: seq<System>, steps: seq<Step>, i: nat, owner: Owner)
    requires IsRun(states, steps) && i < |states|
    ensures owner in states[i].requested <==>
      (owner in states[0].requested && NoneEnds(steps, owner, i)) || AskedFor(steps, owner, i)
  {
    hide Reloaded, Can, Taken, AskedFor;
    if i > 0 {
      AskedSince(states, steps, i - 1, owner);
      AskedAfter(states[i - 1], steps[i - 1], owner);
      AskedOneMore(steps, owner, i - 1);
    } else {
      NoneAsked(steps, owner);
    }
  }

  lemma NoneAsked(steps: seq<Step>, owner: Owner)
    ensures !AskedFor(steps, owner, 0)
  {
  }

  lemma AskedAfter(s: System, step: Step, owner: Owner)
    ensures owner in Taken(s, step).requested <==>
      step == StoreRequest(owner) || (owner in s.requested && step != EndDisposal(owner))
  {
    hide Reloaded;
  }

  lemma AskedOneMore(steps: seq<Step>, owner: Owner, i: nat)
    requires i < |steps|
    ensures AskedFor(steps, owner, i + 1) <==>
      steps[i] == StoreRequest(owner) || (AskedFor(steps, owner, i) && steps[i] != EndDisposal(owner))
  {
    var next := i + 1;
    if AskedFor(steps, owner, next) {
      var j: nat :| AskedAt(steps, owner, j, next);
      assert j < i ==> AskedAt(steps, owner, j, i);
    }
    if AskedFor(steps, owner, i) {
      var j: nat :| AskedAt(steps, owner, j, i);
      assert steps[i] != EndDisposal(owner) ==> AskedAt(steps, owner, j, next);
    }
    if steps[i] == StoreRequest(owner) {
      assert AskedAt(steps, owner, i, next);
    }
  }

  /** What may happen at any time: a crash, an artifact gone by itself, a request; an artifact that nothing
      removes can be recorded and created once held, one that nothing records can be removed, and a disposal
      ends once its owner holds nothing. */
  lemma StepsAreOpen(s: System, h: Held, owner: Owner, op: nat)
    ensures Can(s, Crash) && Can(s, Vanish(h)) && Can(s, StoreRequest(owner))
    ensures op !in s.recordings && (forall other :: other in s.removals ==> h !in s.removals[other].asked) ==> Can(s, StoreRecord(op, h))
    ensures h in s.held && (forall other :: other in s.removals ==> h !in s.removals[other].asked) ==> Can(s, Create(h))
    ensures op in s.recordings ==> Can(s, KeepRecord(op))
    ensures op !in s.removals && (forall other :: other in s.recordings ==> s.recordings[other] != h) ==>
      Can(s, StartRemoval(op, h.owner, {h}))
    ensures op in s.removals && h in s.removals[op].asked && h.owner == s.removals[op].owner && !s.removals[op].stored ==>
      Can(s, RemoveOne(op, h.artifact, true)) && Can(s, RemoveOne(op, h.artifact, false))
    ensures op in s.removals ==> Can(s, if s.removals[op].stored then KeepRemoval(op) else StoreRemoval(op))
    ensures owner in s.marking ==> Can(s, KeepRequest(owner))
    ensures (forall held :: held in s.held ==> held.owner != owner) ==> Can(s, EndDisposal(owner))
  {
  }

  const NOTHING := System([], {}, {}, map[], map[], {}, {}, {})

  /** An owner disposed of with nothing left: the log goes on marking it. */
  lemma DisposalIsForgotten(owner: Owner) returns (states: seq<System>, steps: seq<Step>)
    ensures IsRun(states, steps) && states[0] == NOTHING
    ensures steps == [StoreRequest(owner), KeepRequest(owner), EndDisposal(owner)]
    ensures Forgotten(states[3], owner)
  {
    steps := [StoreRequest(owner), KeepRequest(owner), EndDisposal(owner)];
    var s1 := Taken(NOTHING, steps[0]);
    var s2 := Taken(s1, steps[1]);
    var s3 := Taken(s2, steps[2]);
    states := [NOTHING, s1, s2, s3];
    OneMore(NOTHING.log, Requested(owner));
  }

  /** It exists, and a reload would not know of it. */
  predicate Lost(s: System, h: Held) {
    h in s.present && h !in Reloaded(s.log).held
  }

  /** It is stored as gone while it exists. */
  ghost predicate Loses(s: System, step: Step, h: Held) {
    step.StoreRemoval? && GoneBy(s, step.op, h) && h in s.present
  }

  /** It is recorded again, or ends. */
  predicate Settles(s: System, step: Step, h: Held) {
    match step
    case StoreRecord(_, recorded) => recorded == h
    case Vanish(gone) => gone == h
    case RemoveOne(op, artifact, succeeds) => succeeds && op in s.removals && Held(s.removals[op].owner, artifact) == h
    case _ => false
  }

  lemma LostAfter(s: System, step: Step, h: Held)
    requires Safe(s) && Can(s, step)
    ensures Lost(Taken(s, step), h) <==> Loses(s, step, h) || (Lost(s, h) && !Settles(s, step, h))
  {
    ReloadedAfter(s, step);
    AcknowledgedIsRemoved(s, h);
    hide Reloaded, Apart, Covers, Marks, Acknowledged;
    assert h in Reloaded(s.log).held <==> (h in s.held || BeingRecorded(s, h)) && !Acknowledged(s, h);
  }

  /** Lost at step `j`, and neither recorded again nor ended from then to `i`. */
  ghost predicate LostAt(states: seq<System>, steps: seq<Step>, h: Held, j: nat, i: nat)
    requires i <= |steps| < |states|
  {
    j < i && Loses(states[j], steps[j], h) && forall k :: j < k < i ==> !Settles(states[k], steps[k], h)
  }

  ghost predicate GivenUp(states: seq<System>, steps: seq<Step>, h: Held, i: nat)
    requires i <= |steps| < |states|
  {
    exists j: nat :: LostAt(states, steps, h, j, i)
  }

  ghost predicate LostBefore(states: seq<System>, steps: seq<Step>, h: Held, i: nat)
    requires i <= |steps| < |states|
  {
    Lost(states[0], h) && forall k :: 0 <= k < i ==> !Settles(states[k], steps[k], h)
  }

  /** What exists and is not in the log, at any moment of a run, is exactly what was given up for
      gone while it existed, or was missing at the start, and was neither recorded again nor ended
      since. Only processes are. */
  lemma {:induction false} LostSince(states: seq<System>, steps: seq<Step>, i: nat, h: Held)
    requires IsRun(states, steps) && i < |states|
    ensures Lost(states[i], h)
      <==> LostBefore(states, steps, h, i) || GivenUp(states, steps, h, i)
    ensures Lost(states[i], h) ==> h.artifact.Process?
  {
    RunIsSafe(states, steps, i);
    hide Can, Tracks, Apart, Honest, Marks, Reloaded, Taken;
    if i > 0 {
      LostSince(states, steps, i - 1, h);
      RunIsSafe(states, steps, i - 1);
      LostAfter(states[i - 1], steps[i - 1], h);
      hide Safe, Covers, Lost;
      LostOneMore(states, steps, h, i - 1);
    }
  }

  lemma LostOneMore(states: seq<System>, steps: seq<Step>, h: Held, i: nat)
    requires i < |steps| < |states|
    ensures LostBefore(states, steps, h, i + 1) <==> LostBefore(states, steps, h, i) && !Settles(states[i], steps[i], h)
    ensures GivenUp(states, steps, h, i + 1)
      <==> Loses(states[i], steps[i], h) || (GivenUp(states, steps, h, i) && !Settles(states[i], steps[i], h))
  {
    hide Loses, Settles, Lost;
    if Loses(states[i], steps[i], h) {
      assert LostAt(states, steps, h, i, i + 1);
    }
    var next := i + 1;
    if GivenUp(states, steps, h, next) {
      var j: nat :| LostAt(states, steps, h, j, next);
      assert j < i ==> LostAt(states, steps, h, j, i);
    }
    if GivenUp(states, steps, h, i) {
      var j: nat :| LostAt(states, steps, h, j, i);
      assert !Settles(states[i], steps[i], h) ==> LostAt(states, steps, h, j, i + 1);
    }
  }

  /** A process given up for gone is no longer recorded even when it lives on. */
  lemma ProcessMayOutlive(owner: Owner, pid: nat) returns (states: seq<System>, steps: seq<Step>)
    ensures IsRun(states, steps) && states[0] == NOTHING
    ensures var last := states[|steps|]; var h := Held(owner, Process(pid));
      h in last.present && h !in last.held && h !in Reloaded(last.log).held
  {
    hide Reloaded, Can, Taken;
    var h := Held(owner, Process(pid));
    var recording, s1, s2, s3 := RecordsProcess(h);
    var removing, s4, s5, s6, s7 := RemovesProcess(h, s3);
    states, steps := [NOTHING, s1, s2, s3, s4, s5, s6, s7], recording + removing;
    assert IsRun(states, steps) by {
      StartsEmpty();
    }
    OneMore(s3.log, Removed(owner, [Process(pid)]));
  }

  lemma StartsEmpty()
    ensures Starts(NOTHING)
  {
  }

  lemma RecordsProcess(h: Held) returns (steps: seq<Step>, s1: System, s2: System, s3: System)
    ensures |steps| == 3
    ensures Can(NOTHING, steps[0]) && s1 == Taken(NOTHING, steps[0])
    ensures Can(s1, steps[1]) && s2 == Taken(s1, steps[1])
    ensures Can(s2, steps[2]) && s3 == Taken(s2, steps[2])
    ensures s3 == NOTHING.(log := [Recorded(h.owner, h.artifact)], held := {h}, present := {h})
  {
    hide Reloaded;
    steps := [StoreRecord(0, h), KeepRecord(0), Create(h)];
    s1 := NOTHING.(log := [Recorded(h.owner, h.artifact)], recordings := map[0 := h]);
    s2 := NOTHING.(log := s1.log, held := {h});
    s3 := s2.(present := {h});
  }

  lemma RemovesProcess(h: Held, s3: System)
    returns (steps: seq<Step>, s4: System, s5: System, s6: System, s7: System)
    requires s3 == NOTHING.(log := s3.log, held := {h}, present := {h}) && h.artifact.Process?
    ensures |steps| == 4
    ensures Can(s3, steps[0]) && s4 == Taken(s3, steps[0])
    ensures Can(s4, steps[1]) && s5 == Taken(s4, steps[1])
    ensures Can(s5, steps[2]) && s6 == Taken(s5, steps[2])
    ensures Can(s6, steps[3]) && s7 == Taken(s6, steps[3])
    ensures s7 == s3.(log := s3.log + [Removed(h.owner, [h.artifact])], held := {})
  {
    hide Reloaded;
    steps := [StartRemoval(0, h.owner, {h}), RemoveOne(0, h.artifact, false), StoreRemoval(0), KeepRemoval(0)];
    s4 := s3.(removals := map[0 := Removal(h.owner, {h}, [], false)]);
    s5 := s3.(removals := map[0 := Removal(h.owner, {h}, [h.artifact], false)]);
    s6 := s3.(log := s3.log + [Removed(h.owner, [h.artifact])],
              removals := map[0 := Removal(h.owner, {h}, [h.artifact], true)]);
    s7 := s3.(log := s6.log, held := {});
    assert [] + [h.artifact] == [h.artifact];
    assert HeldOf(h.owner, [h.artifact]) == {h};
  }
}
