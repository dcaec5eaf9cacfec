/** A conversation's board, folded from its stream: as events come, and loaded again from the
    listed kinds of event, newest page first. */
module Boards {
  import opened Wrappers

  const NOTICES_KEPT: nat := 20
  const BOARD_PAGE: nat := 1_000

  datatype RunState = Idle | Starting | Running | Hibernated | Failed

  /** A task, a card or a compaction: its position is where it was first recorded. */
  datatype Card = Card(id: string, position: int, content: string)

  datatype Step = Step(position: int, content: string)
  datatype Memory = Memory(node: string, text: string, forgotten: bool, request: Option<string>, at: int)
  datatype Waiting = Waiting(id: string, key: string, what: string)
  datatype Streaming = Streaming(message: string, text: string, request: Option<string>)
  datatype Head = Head(message: string, place: int)

  datatype Event =
    | TaskUpdated(task: Card)
    | ApprovalUpdated(approval: Card)
    | QuestionUpdated(question: Card)
    | PlanUpdated(plan: Card)
    | CompactionUpdated(compaction: Card)
    | QueueChanged(queue: string)
    | RunStateChanged(state: RunState, request: Option<string>)
    | RequestUpdated(id: string, userRequest: string)
    | WorkerStepped(workerStep: Step)
    | OrchestratorStepped(step: Step)
    | MemoryUpdated(memory: Memory)
    | DecidedForYou(decision: Step)
    | WaitingOnYou(item: Waiting)
    | WaitingResolved(waiting: string)
    | OvernightUpdated(run: string, segment: string)
    | MessageRated(subject: string, rating: string)
    | BranchSwitched(head: string)
    | ConversationNotice(notice: string)
    | MessageDelta(message: string, text: string)
    | MessageAppended(appended: string, assistant: bool)
    | Other

  function KindOf(e: Event): string {
    match e
    case TaskUpdated(_) => "task.updated"
    case ApprovalUpdated(_) => "approval.updated"
    case QuestionUpdated(_) => "question.updated"
    case PlanUpdated(_) => "plan.updated"
    case CompactionUpdated(_) => "compaction.updated"
    case QueueChanged(_) => "queue.changed"
    case RunStateChanged(_, _) => "conversation.run"
    case RequestUpdated(_, _) => "request.updated"
    case WorkerStepped(_) => "worker.step"
    case OrchestratorStepped(_) => "orchestrator.step"
    case MemoryUpdated(_) => "memory.updated"
    case DecidedForYou(_) => "decision.made"
    case WaitingOnYou(_) => "waiting.updated"
    case WaitingResolved(_) => "waiting.resolved"
    case OvernightUpdated(_, _) => "overnight.updated"
    case MessageRated(_, _) => "message.rated"
    case BranchSwitched(_) => "conversation.branch"
    case ConversationNotice(_) => "conversation.notice"
    case MessageDelta(_, _) => "message.delta"
    case MessageAppended(_, _) => "message.appended"
    case Other => "worker.event"
  }

  /** Whether loading reads the event: it does not read messages. */
  const KINDS: set<string> := {
    "conversation.run", "conversation.notice", "task.updated", "approval.updated", "question.updated",
    "plan.updated", "queue.changed", "request.updated", "worker.step", "orchestrator.step",
    "compaction.updated", "message.rated", "conversation.branch", "memory.updated", "decision.made",
    "waiting.updated", "waiting.resolved", "overnight.updated"}

  predicate IsListed(e: Event) {
    KindOf(e) in KINDS
  }

  type Cards = map<string, Card>

  datatype View = View(
    tasks: Cards, approvals: Cards, questions: Cards, plans: Cards, compactions: Cards,
    requests: map<string, string>, ratings: map<string, string>, segments: map<string, string>,
    workerSteps: seq<Step>, orchestratorSteps: seq<Step>, decisions: seq<Step>,
    queue: string, run: RunState, runRequest: Option<string>, head: Option<Head>, streaming: Option<Streaming>,
    notices: seq<string>, memories: seq<Memory>, waiting: map<string, Waiting>, waitsListed: set<string>)

  const EMPTY := View(map[], map[], map[], map[], map[], map[], map[], map[], [], [], [],
                      "", Idle, None, None, None, [], [], map[], {})

  /** An object keeps the position it was first recorded at. */
  function Placed(cards: Cards, card: Card, place: int): Cards {
    cards[card.id := card.(position := if card.id in cards then cards[card.id].position else place)]
  }

  function StepAt(step: Step, place: int): Step {
    step.(position := place)
  }

  /** The last few notices. */
  function Noticed(notices: seq<string>, notice: string): seq<string> {
    var more := notices + [notice];
    if |more| > NOTICES_KEPT then more[1..] else more
  }

  /** A change to a known memory keeps its place. */
  function Remembered(memories: seq<Memory>, memory: Memory): seq<Memory> {
    if memories == [] then [memory]
    else if memories[0].node == memory.node then
      [memories[0].(forgotten := memory.forgotten, text := memory.text)] + memories[1..]
    else [memories[0]] + Remembered(memories[1..], memory)
  }

  function HeadAfter(head: Option<Head>, e: Event, place: int): Option<Head> {
    match e
    case BranchSwitched(message) => Some(Head(message, place))
    case MessageAppended(message, _) => Some(Head(message, place))
    case _ => head
  }

  function StreamingAfter(streaming: Option<Streaming>, runRequest: Option<string>, e: Event): Option<Streaming> {
    match e
    case RunStateChanged(state, _) => if state == Running then streaming else None
    case MessageDelta(message, text) =>
      if streaming.Some? && streaming.value.message == message then
        Some(streaming.value.(text := streaming.value.text + text))
      else Some(Streaming(message, text, runRequest))
    case MessageAppended(message, assistant) =>
      if assistant && streaming.Some? && streaming.value.message == message then None else streaming
    case _ => streaming
  }

  /** The board once an event at `place` in the stream is applied. */
  function Applied(b: View, e: Event, place: int): View {
    View(
      if e.TaskUpdated? then Placed(b.tasks, e.task, place) else b.tasks,
      if e.ApprovalUpdated? then Placed(b.approvals, e.approval, place) else b.approvals,
      if e.QuestionUpdated? then Placed(b.questions, e.question, place) else b.questions,
      if e.PlanUpdated? then Placed(b.plans, e.plan, place) else b.plans,
      if e.CompactionUpdated? then Placed(b.compactions, e.compaction, place) else b.compactions,
      if e.RequestUpdated? then b.requests[e.id := e.userRequest] else b.requests,
      if e.MessageRated? then b.ratings[e.subject := e.rating] else b.ratings,
      if e.OvernightUpdated? then b.segments[e.run := e.segment] else b.segments,
      if e.WorkerStepped? then b.workerSteps + [StepAt(e.workerStep, place)] else b.workerSteps,
      if e.OrchestratorStepped? then b.orchestratorSteps + [StepAt(e.step, place)] else b.orchestratorSteps,
      if e.DecidedForYou? then b.decisions + [StepAt(e.decision, place)] else b.decisions,
      if e.QueueChanged? then e.queue else b.queue,
      if e.RunStateChanged? then e.state else b.run,
      if e.RunStateChanged? then e.request else b.runRequest,
      HeadAfter(b.head, e, place),
      StreamingAfter(b.streaming, b.runRequest, e),
      if e.ConversationNotice? then Noticed(b.notices, e.notice) else b.notices,
      if e.MemoryUpdated? then Remembered(b.memories, e.memory) else b.memories,
      if e.WaitingOnYou? then b.waiting[e.item.id := e.item]
      else if e.WaitingResolved? then b.waiting - {e.waiting} else b.waiting,
      if e.WaitingOnYou? then b.waitsListed + {e.item.key} else b.waitsListed)
  }

  /** An event and its place in the stream. */
  datatype Stored = Stored(event: Event, place: int)

  function FoldedFrom(b: View, stream: seq<Stored>): View
    decreases |stream|
  {
    if stream == [] then b
    else Applied(FoldedFrom(b, stream[..|stream| - 1]), stream[|stream| - 1].event, stream[|stream| - 1].place)
  }

  function Folded(stream: seq<Stored>): View {
    FoldedFrom(EMPTY, stream)
  }

  /** The events of the kinds a board is loaded from. */
  function Listed(stream: seq<Stored>): seq<Stored> {
    if stream == [] then []
    else
      var last := stream[|stream| - 1];
      Listed(stream[..|stream| - 1]) + if IsListed(last.event) then [last] else []
  }

  function Messages(stream: seq<Stored>): seq<Stored> {
    if stream == [] then []
    else
      var last := stream[|stream| - 1];
      Messages(stream[..|stream| - 1]) + if last.event.MessageAppended? then [last] else []
  }

  ghost predicate Ascends(stream: seq<Stored>) {
    forall i, j :: 0 <= i < j < |stream| ==> stream[i].place < stream[j].place
  }

  /** The board without what only a running process has. */
  function Rested(b: View): View {
    b.(run := if b.run == Hibernated then Hibernated else Idle, runRequest := None, streaming := None)
  }

  /** The later of a head the loaded kinds give and the newest message. */
  function Newer(head: Option<Head>, messages: seq<Stored>): Option<Head>
    requires forall m :: m in messages ==> m.event.MessageAppended?
  {
    if messages == [] then head
    else
      var newest := messages[|messages| - 1];
      assert newest in messages;
      if head.None? || head.value.place < newest.place then Some(Head(newest.event.appended, newest.place)) else head
  }

  lemma {:induction false} MessagesAre(stream: seq<Stored>)
    ensures forall m :: m in Messages(stream) <==> m in stream && m.event.MessageAppended?
  {
    if stream != [] {
      MessagesAre(stream[..|stream| - 1]);
    }
  }

  /** The board loaded from a stream. */
  function Loaded(stream: seq<Stored>): View {
    MessagesAre(stream);
    var board := Folded(Listed(stream));
    Rested(board.(head := Newer(board.head, Messages(stream))))
  }

  // Loading agrees with folding.

  /** What outlives a run: the board but for what runs. */
  function Lasting(b: View): View {
    b.(run := Idle, runRequest := None, streaming := None)
  }

  /** What outlives a run does not depend on what runs. */
  lemma LastingApplied(b: View, e: Event, place: int)
    ensures Lasting(Applied(b, e, place)) == Lasting(Applied(Lasting(b), e, place))
  {
  }

  /** Boards that agree go on agreeing. */
  lemma AgreeingApplied(a: View, b: View, e: Event, place: int)
    requires Lasting(a) == Lasting(b)
    ensures Lasting(Applied(a, e, place)) == Lasting(Applied(b, e, place))
  {
    LastingApplied(a, e, place);
    LastingApplied(b, e, place);
  }

  lemma {:induction false} AgreeingFolded(a: View, b: View, stream: seq<Stored>)
    requires Lasting(a) == Lasting(b)
    ensures Lasting(FoldedFrom(a, stream)) == Lasting(FoldedFrom(b, stream))
    decreases |stream|
  {
    if stream != [] {
      var before, last := stream[..|stream| - 1], stream[|stream| - 1];
      AgreeingFolded(a, b, before);
      AgreeingApplied(FoldedFrom(a, before), FoldedFrom(b, before), last.event, last.place);
    }
  }

  /** An event of a kind not listed touches only the head and what streams. */
  lemma UnlistedApplied(b: View, e: Event, place: int)
    requires !IsListed(e)
    ensures Applied(b, e, place) == b.(head := HeadAfter(b.head, e, place), streaming := StreamingAfter(b.streaming, b.runRequest, e))
  {
  }

  predicate SameButHead(a: View, b: View) {
    a.(head := None, streaming := None) == b.(head := None, streaming := None)
  }

  /** Events not listed matter only for the head and what streams. */
  lemma {:induction false} ListedFolded(stream: seq<Stored>)
    ensures SameButHead(Folded(stream), Folded(Listed(stream)))
  {
    if stream != [] {
      var before, last := stream[..|stream| - 1], stream[|stream| - 1];
      ListedFolded(before);
      var listed := Listed(before);
      if IsListed(last.event) {
        assert Listed(stream) == listed + [last];
        assert (listed + [last])[..|listed|] == listed;
        SameApplied(Folded(before), Folded(listed), last.event, last.place);
      } else {
        UnlistedApplied(Folded(before), last.event, last.place);
        assert Listed(stream) == listed;
      }
    }
  }

  lemma SameApplied(a: View, b: View, e: Event, place: int)
    requires SameButHead(a, b)
    ensures SameButHead(Applied(a, e, place), Applied(b, e, place))
  {
  }

  /** The last event that set the head. */
  function LastHead(stream: seq<Stored>): Option<Head> {
    if stream == [] then None
    else HeadAfter(LastHead(stream[..|stream| - 1]), stream[|stream| - 1].event, stream[|stream| - 1].place)
  }

  lemma {:induction false} HeadIsLast(stream: seq<Stored>)
    ensures Folded(stream).head == LastHead(stream)
  {
    if stream != [] {
      HeadIsLast(stream[..|stream| - 1]);
    }
  }

  lemma ListedHead(head: Option<Head>, e: Event, place: int)
    ensures IsListed(e) ==> !e.MessageAppended?
    ensures !IsListed(e) && !e.MessageAppended? ==> HeadAfter(head, e, place) == head
    ensures HeadAfter(head, e, place) == head || HeadAfter(head, e, place).value.place == place
  {
  }

  /** Without its messages a stream's last head comes out the same, once the newest is added. */
  lemma {:induction false} HeadWithoutMessages(stream: seq<Stored>)
    requires Ascends(stream)
    ensures forall m :: m in Messages(stream) ==> m.event.MessageAppended?
    ensures Newer(LastHead(Listed(stream)), Messages(stream)) == LastHead(stream)
    ensures LastHead(Listed(stream)).Some? ==> stream != [] && LastHead(Listed(stream)).value.place <= stream[|stream| - 1].place
    ensures Messages(stream) != [] ==> stream != [] && Messages(stream)[|Messages(stream)| - 1].place <= stream[|stream| - 1].place
  {
    MessagesAre(stream);
    if stream != [] {
      hide Listed, LastHead, Messages, Newer;
      var before, last := stream[..|stream| - 1], stream[|stream| - 1];
      assert stream == before + [last];
      assert Ascends(before);
      HeadWithoutMessages(before);
      assert before != [] ==> before[|before| - 1].place < last.place;
      HeadWithOne(before, last, Listed(before), Messages(before));
    }
  }

  lemma {:induction false} HeadWithOne(before: seq<Stored>, last: Stored, listed: seq<Stored>, messages: seq<Stored>)
    requires listed == Listed(before) && messages == Messages(before) && forall m :: m in messages ==> m.event.MessageAppended?
    requires Newer(LastHead(listed), messages) == LastHead(before)
    requires LastHead(listed).Some? ==> LastHead(listed).value.place < last.place
    requires messages != [] ==> messages[|messages| - 1].place < last.place
    ensures var stream := before + [last];
      && (forall m :: m in Messages(stream) ==> m.event.MessageAppended?)
      && Newer(LastHead(Listed(stream)), Messages(stream)) == LastHead(stream)
      && (LastHead(Listed(stream)).Some? ==> LastHead(Listed(stream)).value.place <= last.place)
      && (Messages(stream) != [] ==> Messages(stream)[|Messages(stream)| - 1].place <= last.place)
  {
    hide IsListed, HeadAfter, Newer;
    var stream := before + [last];
    OneListed(before, last);
    ListedHead(LastHead(listed), last.event, last.place);
    MessageHead(LastHead(before), last.event, last.place);
    MessageHead(LastHead(listed), last.event, last.place);
    LastHeadOne(before, last);
    LastHeadOne(listed, last);
    hide LastHead, Listed, Messages;
    NewerOne(LastHead(listed), messages, last);
  }

  lemma OneListed(before: seq<Stored>, last: Stored)
    ensures Listed(before + [last]) == if IsListed(last.event) then Listed(before) + [last] else Listed(before)
    ensures Messages(before + [last]) == if last.event.MessageAppended? then Messages(before) + [last] else Messages(before)
  {
    hide IsListed;
    assert (before + [last])[..|before|] == before;
  }

  lemma LastHeadOne(before: seq<Stored>, last: Stored)
    ensures LastHead(before + [last]) == HeadAfter(LastHead(before), last.event, last.place)
  {
    hide HeadAfter;
    assert (before + [last])[..|before|] == before;
  }

  lemma NewerOne(head: Option<Head>, messages: seq<Stored>, last: Stored)
    requires forall m :: m in messages ==> m.event.MessageAppended?
    requires messages != [] ==> messages[|messages| - 1].place < last.place
    requires head.Some? ==> head.value.place < last.place
    ensures last.event.MessageAppended? ==>
      (forall m :: m in messages + [last] ==> m.event.MessageAppended?)
      && Newer(head, messages + [last]) == Some(Head(last.event.appended, last.place))
    ensures forall id :: Newer(Some(Head(id, last.place)), messages) == Some(Head(id, last.place))
  {
  }

  lemma MessageHead(head: Option<Head>, e: Event, place: int)
    ensures HeadAfter(head, e, place) ==
      if e.BranchSwitched? then Some(Head(e.head, place))
      else if e.MessageAppended? then Some(Head(e.appended, place))
      else head
  {
  }

  /** A loaded board agrees with the fold of the whole stream on everything but what runs: no run
      survives, unless it hibernates. */
  lemma LoadAgrees(stream: seq<Stored>)
    requires Ascends(stream)
    ensures Lasting(Loaded(stream)) == Lasting(Folded(stream))
    ensures Loaded(stream).run == if Folded(stream).run == Hibernated then Hibernated else Idle
    ensures Loaded(stream).runRequest == None && Loaded(stream).streaming == None
  {
    ListedFolded(stream);
    HeadIsLast(stream);
    HeadIsLast(Listed(stream));
    HeadWithoutMessages(stream);
    hide Folded, Listed, LastHead, Messages;
    MessagesAre(stream);
    SameLasting(Folded(stream), Folded(Listed(stream)), Newer(Folded(Listed(stream)).head, Messages(stream)));
  }

  lemma SameLasting(a: View, b: View, head: Option<Head>)
    requires SameButHead(a, b) && a.head == head
    ensures Lasting(Rested(b.(head := head))) == Lasting(a) && Rested(b.(head := head)).run == Rested(a).run
  {
  }

  lemma {:induction false} FoldedOn(a: seq<Stored>, b: seq<Stored>)
    ensures Folded(a + b) == FoldedFrom(Folded(a), b)
  {
    if b == [] {
      assert a + b == a;
    } else {
      FoldedOn(a, b[..|b| - 1]);
      assert (a + b)[..|a + b| - 1] == a + b[..|b| - 1];
    }
  }

  /** Loading a board and then applying events as they come agrees with loading it later. */
  lemma LoadThenApply(a: seq<Stored>, b: seq<Stored>)
    requires Ascends(a + b)
    ensures Lasting(FoldedFrom(Loaded(a), b)) == Lasting(Loaded(a + b))
  {
    assert Ascends(a) by {
      assert forall i :: 0 <= i < |a| ==> (a + b)[i] == a[i];
    }
    LoadAgrees(a);
    LoadAgrees(a + b);
    FoldedOn(a, b);
    AgreeingFolded(Loaded(a), Folded(a), b);
  }

  // What a board shows.

  datatype Subject = Task(id: string) | Approval(id: string) | Question(id: string) | Plan(id: string)
                   | Compaction(id: string) | Remembering(id: string)

  /** The event records the subject. */
  predicate Records(e: Event, subject: Subject) {
    match subject
    case Task(id) => e.TaskUpdated? && e.task.id == id
    case Approval(id) => e.ApprovalUpdated? && e.approval.id == id
    case Question(id) => e.QuestionUpdated? && e.question.id == id
    case Plan(id) => e.PlanUpdated? && e.plan.id == id
    case Compaction(id) => e.CompactionUpdated? && e.compaction.id == id
    case Remembering(node) => e.MemoryUpdated? && e.memory.node == node
  }

  function ContentOf(e: Event): string {
    match e
    case TaskUpdated(card) => card.content
    case ApprovalUpdated(card) => card.content
    case QuestionUpdated(card) => card.content
    case PlanUpdated(card) => card.content
    case CompactionUpdated(card) => card.content
    case _ => ""
  }

  function CardsOf(b: View, subject: Subject): Cards {
    match subject
    case Task(_) => b.tasks
    case Approval(_) => b.approvals
    case Question(_) => b.questions
    case Plan(_) => b.plans
    case Compaction(_) => b.compactions
    case Remembering(_) => map[]
  }

  /** The first and the last event that record a subject. */
  function First(stream: seq<Stored>, subject: Subject): (first: Option<nat>)
    ensures first.Some? ==> first.value < |stream| && Records(stream[first.value].event, subject)
    ensures forall i :: 0 <= i < |stream| && Records(stream[i].event, subject) ==> first.Some? && first.value <= i
  {
    if stream == [] then None
    else
      var before := First(stream[..|stream| - 1], subject);
      if before.Some? then before
      else if Records(stream[|stream| - 1].event, subject) then Some(|stream| - 1) else None
  }

  function Last(stream: seq<Stored>, subject: Subject): (last: Option<nat>)
    ensures last.Some? ==> last.value < |stream| && Records(stream[last.value].event, subject)
    ensures forall i :: 0 <= i < |stream| && Records(stream[i].event, subject) ==> last.Some? && i <= last.value
  {
    if stream == [] then None
    else if Records(stream[|stream| - 1].event, subject) then Some(|stream| - 1)
    else Last(stream[..|stream| - 1], subject)
  }

  lemma CardApplied(b: View, e: Event, place: int, subject: Subject)
    requires !subject.Remembering?
    ensures var cards, after := CardsOf(b, subject), CardsOf(Applied(b, e, place), subject);
      if Records(e, subject) then
        && subject.id in after && after[subject.id].content == ContentOf(e)
        && after[subject.id].position == if subject.id in cards then cards[subject.id].position else place
      else (subject.id in after <==> subject.id in cards) && (subject.id in cards ==> after[subject.id] == cards[subject.id])
  {
  }

  /** Each object is shown as last recorded, at the position it was first recorded. */
  lemma {:induction false} FirstPosition(stream: seq<Stored>, subject: Subject)
    requires !subject.Remembering?
    ensures var cards, first := CardsOf(Folded(stream), subject), First(stream, subject);
      && (subject.id in cards <==> first.Some?)
      && (subject.id in cards ==>
            && Last(stream, subject).Some?
            && cards[subject.id].position == stream[first.value].place
            && cards[subject.id].content == ContentOf(stream[Last(stream, subject).value].event))
  {
    if stream != [] {
      var before, last := stream[..|stream| - 1], stream[|stream| - 1];
      FirstPosition(before, subject);
      CardApplied(Folded(before), last.event, last.place, subject);
      hide Applied, CardsOf, ContentOf, Records;
    }
  }

  function Notices(stream: seq<Stored>): seq<string> {
    if stream == [] then []
    else
      var last := stream[|stream| - 1].event;
      Notices(stream[..|stream| - 1]) + if last.ConversationNotice? then [last.notice] else []
  }

  /** A board keeps the newest notices, as many as are kept, in order. */
  lemma {:induction false} NewestNotices(stream: seq<Stored>)
    ensures var all := Notices(stream);
      Folded(stream).notices == if |all| <= NOTICES_KEPT then all else all[|all| - NOTICES_KEPT..]
  {
    if stream != [] {
      NewestNotices(stream[..|stream| - 1]);
    }
  }

  // Memories.

  function Revised(known: Memory, memory: Memory): Memory {
    if known.node == memory.node then known.(text := memory.text, forgotten := memory.forgotten) else known
  }

  /** The known memories revised, and the new one at the end if it is not known. */
  ghost predicate RememberedAs(memories: seq<Memory>, memory: Memory, after: seq<Memory>) {
    && DistinctNodes(after) && |memories| <= |after| <= |memories| + 1
    && (forall k :: 0 <= k < |memories| ==> after[k] == Revised(memories[k], memory))
    && (|after| == |memories| + 1 <==> forall k :: 0 <= k < |memories| ==> memories[k].node != memory.node)
    && (|after| == |memories| + 1 ==> after[|memories|] == memory)
  }

  lemma {:induction false} RememberedIs(memories: seq<Memory>, memory: Memory)
    requires DistinctNodes(memories)
    ensures RememberedAs(memories, memory, Remembered(memories, memory))
  {
    if memories != [] && memories[0].node != memory.node {
      RememberedIs(memories[1..], memory);
    }
  }

  predicate DistinctNodes(memories: seq<Memory>) {
    forall i, j :: 0 <= i < j < |memories| ==> memories[i].node != memories[j].node
  }

  /** The memory was first saved at `first`, and says what the last change of it said. */
  ghost predicate SavedAt(stream: seq<Stored>, m: Memory) {
    var first, last := First(stream, Remembering(m.node)), Last(stream, Remembering(m.node));
    && first.Some? && last.Some?
    && m.request == stream[first.value].event.memory.request && m.at == stream[first.value].event.memory.at
    && m.text == stream[last.value].event.memory.text && m.forgotten == stream[last.value].event.memory.forgotten
  }

  predicate SavedBefore(stream: seq<Stored>, a: Memory, b: Memory) {
    var first, second := First(stream, Remembering(a.node)), First(stream, Remembering(b.node));
    first.Some? && second.Some? && first.value < second.value
  }

  /** The list has one entry per node that was saved, ordered by first change, worded by the last one. */
  ghost predicate Remembers(stream: seq<Stored>, memories: seq<Memory>) {
    && DistinctNodes(memories)
    && (forall k :: 0 <= k < |memories| ==> SavedAt(stream, memories[k]))
    && (forall i, j :: 0 <= i < j < |memories| ==> SavedBefore(stream, memories[i], memories[j]))
    && forall node :: First(stream, Remembering(node)).Some? ==> exists k :: 0 <= k < |memories| && memories[k].node == node
  }

  lemma {:induction false} LatestMemories(stream: seq<Stored>)
    ensures Remembers(stream, Folded(stream).memories)
  {
    if stream != [] {
      var before, last := stream[..|stream| - 1], stream[|stream| - 1];
      LatestMemories(before);
      var memories := Folded(before).memories;
      hide Remembered, First, Last;
      if last.event.MemoryUpdated? {
        RememberedIs(memories, last.event.memory);
        RemembersOne(before, last, memories, Remembered(memories, last.event.memory));
      } else {
        RemembersOther(before, last, memories);
      }
      assert before + [last] == stream;
    }
  }

  lemma FirstWithOne(before: seq<Stored>, last: Stored, subject: Subject)
    ensures First(before + [last], subject) ==
      if First(before, subject).Some? then First(before, subject)
      else if Records(last.event, subject) then Some(|before|) else None
    ensures Last(before + [last], subject) == if Records(last.event, subject) then Some(|before|) else Last(before, subject)
  {
    assert (before + [last])[..|before|] == before;
  }

  lemma RemembersOther(before: seq<Stored>, last: Stored, memories: seq<Memory>)
    requires Remembers(before, memories) && !last.event.MemoryUpdated?
    ensures Remembers(before + [last], memories)
  {
    hide First, Last;
    forall node ensures
      && First(before + [last], Remembering(node)) == First(before, Remembering(node))
      && Last(before + [last], Remembering(node)) == Last(before, Remembering(node))
    {
      FirstWithOne(before, last, Remembering(node));
    }
    SameRemembers(before, before + [last], memories);
  }

  lemma SameRemembers(before: seq<Stored>, stream: seq<Stored>, memories: seq<Memory>)
    requires before <= stream && Remembers(before, memories)
    requires forall node ::
      && First(stream, Remembering(node)) == First(before, Remembering(node))
      && Last(stream, Remembering(node)) == Last(before, Remembering(node))
    ensures Remembers(stream, memories)
  {
    hide First, Last, SavedAt, SavedBefore;
    forall m: Memory | SavedAt(before, m) ensures SavedAt(stream, m) {
      SameSaved(before, stream, m);
    }
    forall a: Memory, b: Memory | SavedBefore(before, a, b) ensures SavedBefore(stream, a, b) {
      SameOrder(before, stream, a, b);
    }
  }

  lemma SameSaved(before: seq<Stored>, stream: seq<Stored>, m: Memory)
    requires before <= stream && SavedAt(before, m)
    requires First(stream, Remembering(m.node)) == First(before, Remembering(m.node))
    requires Last(stream, Remembering(m.node)) == Last(before, Remembering(m.node))
    ensures SavedAt(stream, m)
  {
    hide First, Last;
  }

  lemma SameOrder(before: seq<Stored>, stream: seq<Stored>, a: Memory, b: Memory)
    requires SavedBefore(before, a, b)
    requires First(stream, Remembering(a.node)) == First(before, Remembering(a.node))
    requires First(stream, Remembering(b.node)) == First(before, Remembering(b.node))
    ensures SavedBefore(stream, a, b)
  {
    hide First, Last;
  }

  /** How one more change of a memory moves the first and last changes. */
  ghost predicate OneMore(before: seq<Stored>, stream: seq<Stored>, node: string) {
    forall n ::
      && First(stream, Remembering(n)) ==
         (if First(before, Remembering(n)).Some? then First(before, Remembering(n)) else if n == node then Some(|before|) else None)
      && Last(stream, Remembering(n)) == if n == node then Some(|before|) else Last(before, Remembering(n))
  }

  lemma RemembersOne(before: seq<Stored>, last: Stored, memories: seq<Memory>, after: seq<Memory>)
    requires Remembers(before, memories) && last.event.MemoryUpdated? && RememberedAs(memories, last.event.memory, after)
    ensures Remembers(before + [last], after)
  {
    hide First, Last, SavedAt, RememberedAs;
    var stream, node := before + [last], last.event.memory.node;
    forall n ensures
      && First(stream, Remembering(n)) ==
         (if First(before, Remembering(n)).Some? then First(before, Remembering(n)) else if n == node then Some(|before|) else None)
      && Last(stream, Remembering(n)) == if n == node then Some(|before|) else Last(before, Remembering(n))
    {
      FirstWithOne(before, last, Remembering(n));
    }
    assert OneMore(before, stream, node);
    forall k | 0 <= k < |after| ensures SavedAt(stream, after[k]) {
      SavedStill(before, last, memories, after, k);
    }
    SavedInOrder(before, stream, last.event.memory, memories, after);
    SavedAll(before, stream, last.event.memory, memories, after);
    RememberedDistinct(memories, last.event.memory, after);
  }

  lemma RememberedDistinct(memories: seq<Memory>, memory: Memory, after: seq<Memory>)
    requires RememberedAs(memories, memory, after)
    ensures DistinctNodes(after)
  {
  }

  lemma SavedStill(before: seq<Stored>, last: Stored, memories: seq<Memory>, after: seq<Memory>, k: nat)
    requires Remembers(before, memories) && last.event.MemoryUpdated? && RememberedAs(memories, last.event.memory, after)
    requires k < |after| && OneMore(before, before + [last], last.event.memory.node)
    ensures SavedAt(before + [last], after[k])
  {
    hide First, Last;
    if k < |memories| {
      assert SavedAt(before, memories[k]);
    } else {
      assert First(before, Remembering(last.event.memory.node)).None?;
    }
  }

  lemma SavedInOrder(before: seq<Stored>, stream: seq<Stored>, memory: Memory, memories: seq<Memory>, after: seq<Memory>)
    requires Remembers(before, memories) && RememberedAs(memories, memory, after) && OneMore(before, stream, memory.node)
    requires forall k :: 0 <= k < |after| ==> SavedAt(stream, after[k])
    ensures forall i, j :: 0 <= i < j < |after| ==> SavedBefore(stream, after[i], after[j])
  {
    hide First, Last;
    forall i, j | 0 <= i < j < |after| ensures SavedBefore(stream, after[i], after[j]) {
      assert SavedAt(stream, after[i]) && SavedAt(stream, after[j]) && SavedAt(before, memories[i]);
      if j < |memories| {
        assert SavedBefore(before, memories[i], memories[j]);
      }
    }
  }

  lemma SavedAll(before: seq<Stored>, stream: seq<Stored>, memory: Memory, memories: seq<Memory>, after: seq<Memory>)
    requires Remembers(before, memories) && RememberedAs(memories, memory, after) && OneMore(before, stream, memory.node)
    ensures forall node :: First(stream, Remembering(node)).Some? ==> exists k :: 0 <= k < |after| && after[k].node == node
  {
    hide First, Last, SavedAt;
    forall n | First(stream, Remembering(n)).Some? ensures exists k :: 0 <= k < |after| && after[k].node == n {
      if First(before, Remembering(n)).Some? {
        var k :| 0 <= k < |memories| && memories[k].node == n;
        assert after[k].node == n;
      } else if |after| == |memories| {
        var k :| 0 <= k < |memories| && memories[k].node == memory.node;
        assert after[k].node == n;
      } else {
        assert after[|memories|].node == n;
      }
    }
  }
}
