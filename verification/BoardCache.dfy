/** A conversation's stream and its board in memory: the board is loaded when first needed and
    kept current with every event recorded. */
module BoardCache {
  import opened Wrappers
  import opened Boards

  predicate IsWork(e: Event) {
    e.TaskUpdated? || e.CompactionUpdated? || e.MemoryUpdated?
  }

  predicate IsCard(e: Event) {
    e.ApprovalUpdated? || e.QuestionUpdated? || e.PlanUpdated?
  }

  predicate IsTurn(e: Event) {
    e.QueueChanged? || e.BranchSwitched?
  }

  predicate IsEntry(e: Event) {
    e.WorkerStepped? || e.OrchestratorStepped? || e.DecidedForYou?
  }

  predicate IsKeyed(e: Event) {
    e.RequestUpdated? || e.OvernightUpdated? || e.MessageRated? || e.Other?
  }

  lemma RunApplied(b: View, state: RunState, request: Option<string>, place: int)
    ensures Applied(b, RunStateChanged(state, request), place) ==
      b.(run := state, runRequest := request, streaming := if state == Running then b.streaming else None)
  {
  }

  class Board {
    var tasks: Cards
    var approvals: Cards
    var questions: Cards
    var plans: Cards
    var compactions: Cards
    var requests: map<string, string>
    var ratings: map<string, string>
    var segments: map<string, string>
    var workerSteps: seq<Step>
    var orchestratorSteps: seq<Step>
    var decisions: seq<Step>
    var queue: string
    var run: RunState
    var runRequest: Option<string>
    var head: Option<Head>
    var streaming: Option<Streaming>
    var notices: seq<string>
    var memories: seq<Memory>
    var waiting: map<string, Waiting>
    var waitsListed: set<string>

    constructor ()
      ensures State() == EMPTY
    {
      tasks, approvals, questions, plans, compactions := map[], map[], map[], map[], map[];
      requests, ratings, segments := map[], map[], map[];
      workerSteps, orchestratorSteps, decisions := [], [], [];
      queue, run, runRequest, head, streaming := "", Idle, None, None, None;
      notices, memories, waiting, waitsListed := [], [], map[], {};
    }

    function State(): View
      reads this
    {
      View(tasks, approvals, questions, plans, compactions, requests, ratings, segments,
           workerSteps, orchestratorSteps, decisions, queue, run, runRequest, head, streaming,
           notices, memories, waiting, waitsListed)
    }

    /** What the event at `place` does to the fields. */
    method Apply(e: Event, place: int)
      modifies this
      ensures State() == Applied(old(State()), e, place)
    {
      hide Applied;
      if IsWork(e) {
        ApplyWork(e, place);
      } else if IsCard(e) {
        ApplyCard(e, place);
      } else if IsTurn(e) {
        ApplyTurn(e, place);
      } else if IsEntry(e) {
        ApplyEntry(e, place);
      } else if e.MessageDelta? || e.MessageAppended? {
        ApplyMessage(e, place);
      } else if e.RunStateChanged? {
        ApplyRun(e.state, e.request, place);
      } else if e.ConversationNotice? {
        ApplyNotice(e.notice, place);
      } else if e.WaitingOnYou? || e.WaitingResolved? {
        ApplyWaiting(e, place);
      } else {
        ApplyKeyed(e, place);
      }
    }

    method ApplyWork(e: Event, place: int)
      requires IsWork(e)
      modifies this
      ensures State() == Applied(old(State()), e, place)
    {
      hide Placed, Noticed, Remembered;
      match e {
        case TaskUpdated(task) => tasks := Placed(tasks, task, place);
        case CompactionUpdated(compaction) => compactions := Placed(compactions, compaction, place);
        case MemoryUpdated(memory) => memories := Remember(memories, memory);
      }
    }

    method ApplyCard(e: Event, place: int)
      requires IsCard(e)
      modifies this
      ensures State() == Applied(old(State()), e, place)
    {
      hide Placed, Noticed, Remembered;
      match e {
        case ApprovalUpdated(approval) => approvals := Placed(approvals, approval, place);
        case QuestionUpdated(question) => questions := Placed(questions, question, place);
        case PlanUpdated(plan) => plans := Placed(plans, plan, place);
      }
    }

    method ApplyTurn(e: Event, place: int)
      requires IsTurn(e)
      modifies this
      ensures State() == Applied(old(State()), e, place)
    {
      hide Placed, Noticed, Remembered;
      match e {
        case QueueChanged(changed) => queue := changed;
        case BranchSwitched(message) => head := Some(Head(message, place));
      }
    }

    method ApplyRun(state: RunState, request: Option<string>, place: int)
      modifies this
      ensures State() == Applied(old(State()), RunStateChanged(state, request), place)
    {
      hide Applied;
      RunApplied(State(), state, request, place);
      run, runRequest := state, request;
      if state != Running {
        streaming := None;
      }
    }

    method ApplyMessage(e: Event, place: int)
      requires e.MessageDelta? || e.MessageAppended?
      modifies this
      ensures State() == Applied(old(State()), e, place)
    {
      hide Placed, Noticed, Remembered;
      match e {
        case MessageDelta(message, text) =>
          if streaming.Some? && streaming.value.message == message {
            streaming := Some(streaming.value.(text := streaming.value.text + text));
          } else {
            streaming := Some(Streaming(message, text, runRequest));
          }
        case MessageAppended(message, assistant) =>
          head := Some(Head(message, place));
          if assistant && streaming.Some? && streaming.value.message == message {
            streaming := None;
          }
      }
    }

    method ApplyEntry(e: Event, place: int)
      requires IsEntry(e)
      modifies this
      ensures State() == Applied(old(State()), e, place)
    {
      hide Placed, Remembered;
      match e {
        case WorkerStepped(step) => workerSteps := workerSteps + [step.(position := place)];
        case OrchestratorStepped(step) => orchestratorSteps := orchestratorSteps + [step.(position := place)];
        case DecidedForYou(decision) => decisions := decisions + [decision.(position := place)];
      }
    }

    method ApplyNotice(notice: string, place: int)
      modifies this
      ensures State() == Applied(old(State()), ConversationNotice(notice), place)
    {
      var more := notices + [notice];
      if |more| > NOTICES_KEPT {
        more := more[1..];
      }
      notices := more;
    }

    method ApplyWaiting(e: Event, place: int)
      requires e.WaitingOnYou? || e.WaitingResolved?
      modifies this
      ensures State() == Applied(old(State()), e, place)
    {
      hide Placed, Noticed, Remembered;
      match e {
        case WaitingOnYou(item) => waitsListed, waiting := waitsListed + {item.key}, waiting[item.id := item];
        case WaitingResolved(id) => waiting := waiting - {id};
      }
    }

    method ApplyKeyed(e: Event, place: int)
      requires IsKeyed(e)
      modifies this
      ensures State() == Applied(old(State()), e, place)
    {
      hide Placed, Noticed, Remembered;
      match e {
        case RequestUpdated(id, request) => requests := requests[id := request];
        case OvernightUpdated(id, segment) => segments := segments[id := segment];
        case MessageRated(subject, rating) => ratings := ratings[subject := rating];
        case Other =>
      }
    }

    /** A board just loaded has no run, no request for one and nothing streaming. */
    method Rest()
      modifies this
      ensures State() == Rested(old(State()))
    {
      run := if run == Hibernated then Hibernated else Idle;
      runRequest := None;
      streaming := None;
    }

    /** Sets the head from what the board's kinds say and the newest message there is, whichever is later. */
    method SetHead(newest: seq<Stored>)
      requires |newest| <= 1 && forall m :: m in newest ==> m.event.MessageAppended?
      modifies this
      ensures State() == old(State()).(head := Newer(old(head), newest))
    {
      if newest != [] {
        assert newest[0] in newest;
        if head.None? || head.value.place < newest[0].place {
          head := Some(Head(newest[0].event.appended, newest[0].place));
        }
      }
    }

    /** Looks for the memory's place, and changes what it says there. */
    static method Remember(memories: seq<Memory>, memory: Memory) returns (after: seq<Memory>)
      ensures after == Remembered(memories, memory)
    {
      var i := 0;
      while i < |memories|
        invariant i <= |memories|
        invariant memories[..i] + Remembered(memories[i..], memory) == Remembered(memories, memory)
      {
        assert memories[i..][1..] == memories[i + 1..] && memories[i..][0] == memories[i];
        if memories[i].node == memory.node {
          assert memories[..i] + ([memories[i].(forgotten := memory.forgotten, text := memory.text)] + memories[i + 1..])
              == memories[i := memories[i].(forgotten := memory.forgotten, text := memory.text)];
          return memories[i := memories[i].(forgotten := memory.forgotten, text := memory.text)];
        }
        assert memories[..i] + ([memories[i]] + Remembered(memories[i + 1..], memory))
            == memories[..i + 1] + Remembered(memories[i + 1..], memory);
        i := i + 1;
      }
      assert memories[..|memories|] + [memory] == memories + [memory];
      return memories + [memory];
    }
  }

  /** The events before a place in the stream. */
  function Before(stream: seq<Stored>, before: Option<int>): seq<Stored> {
    if before.None? || stream == [] || stream[|stream| - 1].place < before.value then stream
    else Before(stream[..|stream| - 1], before)
  }

  /** At most `limit` events before a place, newest first. */
  function Page(stream: seq<Stored>, before: Option<int>, limit: nat): seq<Stored> {
    var visible := Before(stream, before);
    Reversed(if |visible| > limit then visible[|visible| - limit..] else visible)
  }

  lemma {:induction false} BeforeIs(stream: seq<Stored>, k: nat)
    requires Ascends(stream) && k < |stream|
    ensures Before(stream, Some(stream[k].place)) == stream[..k]
    decreases |stream|
  {
    var shorter := stream[..|stream| - 1];
    if k < |stream| - 1 {
      BeforeIs(shorter, k);
      assert shorter[..k] == stream[..k];
    } else if shorter != [] {
      assert Before(shorter, Some(stream[k].place)) == shorter;
    }
  }

  lemma {:induction false} ListedAscends(stream: seq<Stored>)
    requires Ascends(stream)
    ensures Ascends(Listed(stream)) && forall e :: e in Listed(stream) ==> e in stream
  {
    if stream != [] {
      ListedAscends(stream[..|stream| - 1]);
      forall e | e in Listed(stream[..|stream| - 1]) ensures e.place < stream[|stream| - 1].place {
        var i :| 0 <= i < |stream| - 1 && stream[i] == e;
      }
    }
  }

  lemma PagesJoin(listed: seq<Stored>, j: nat, k: nat)
    requires j <= k <= |listed|
    ensures Reversed(listed[k..]) + Reversed(listed[j..k]) == Reversed(listed[j..])
  {
  }

  lemma NothingRead(listed: seq<Stored>)
    ensures Reversed(listed[|listed|..]) == [] && Before(listed, None) == listed[..|listed|]
  {
  }

  /** Reads every listed event, newest page first. */
  method ReadListed(stream: seq<Stored>) returns (events: seq<Stored>)
    requires Ascends(stream)
    ensures events == Reversed(Listed(stream))
  {
    hide Page, Reversed;
    var listed := Listed(stream);
    ListedAscends(stream);
    events := [];
    var before: Option<int> := None;
    ghost var k: nat := |listed|;
    NothingRead(listed);
    while true
      invariant k <= |listed| && events == Reversed(listed[k..])
      invariant Before(listed, before) == listed[..k]
      decreases k
    {
      var page := Page(listed, before, BOARD_PAGE);
      var full := |page| == BOARD_PAGE;
      ghost var j := NextPage(listed, before, k, page);
      before := if page == [] then None else Some(page[|page| - 1].place);
      PagesJoin(listed, j, k);
      events := events + page;
      if !full {
        assert listed[0..] == listed;
        return;
      }
      k := j;
    }
  }

  /** The page before place `k` reaches down to the one returned; a full one leaves the rest. */
  lemma NextPage(listed: seq<Stored>, before: Option<int>, k: nat, page: seq<Stored>) returns (j: nat)
    requires Ascends(listed) && k <= |listed| && Before(listed, before) == listed[..k] && page == Page(listed, before, BOARD_PAGE)
    ensures j <= k && page == Reversed(listed[j..k])
    ensures |page| == BOARD_PAGE ==> j < k && Before(listed, Some(page[|page| - 1].place)) == listed[..j]
    ensures |page| != BOARD_PAGE ==> j == 0
  {
    j := if k > BOARD_PAGE then k - BOARD_PAGE else 0;
    assert (if k > BOARD_PAGE then listed[..k][k - BOARD_PAGE..] else listed[..k]) == listed[j..k];
    hide Before, Page;
    if |page| == BOARD_PAGE {
      assert page[|page| - 1] == listed[j];
      BeforeIs(listed, j);
    }
  }

  /** Folds events that come newest first. */
  method FoldBack(events: seq<Stored>, ghost listed: seq<Stored>) returns (board: Board)
    requires events == Reversed(listed)
    ensures fresh(board) && board.State() == Folded(listed)
  {
    hide Applied;
    board := new Board();
    var i := |events|;
    while i > 0
      invariant 0 <= i <= |events| == |listed| && fresh(board)
      invariant board.State() == Folded(listed[..|listed| - i])
    {
      i := i - 1;
      ghost var done := |events| - i;
      assert events[i] == listed[done - 1] && listed[..done][..done - 1] == listed[..done - 1];
      board.Apply(events[i].event, events[i].place);
    }
    assert listed[..|listed|] == listed;
  }

  lemma NewestIs(messages: seq<Stored>, head: Option<Head>)
    requires forall m :: m in messages ==> m.event.MessageAppended?
    ensures |Page(messages, None, 1)| <= 1 && forall m :: m in Page(messages, None, 1) ==> m.event.MessageAppended?
    ensures Newer(head, Page(messages, None, 1)) == Newer(head, messages)
  {
    var page := Page(messages, None, 1);
    if messages != [] {
      assert page == [messages[|messages| - 1]];
    }
  }

  /** The board of a stream read backwards page by page and folded forwards. */
  method LoadBoard(stream: seq<Stored>) returns (board: Board)
    requires Ascends(stream)
    ensures fresh(board) && board.State() == Loaded(stream)
  {
    hide Folded, Page, Newer;
    var events := ReadListed(stream);
    board := FoldBack(events, Listed(stream));
    MessagesAre(stream);
    NewestIs(Messages(stream), board.head);
    board.SetHead(Page(Messages(stream), None, 1));
    board.Rest();
  }

  class Conversation {
    var stream: seq<Stored>
    var cached: Board?

    constructor ()
      ensures Valid() && stream == [] && cached == null
    {
      stream, cached := [], null;
    }

    /** The board in memory, if there is one, is what loading it now would give, but for what runs. */
    ghost predicate Valid()
      reads this, cached
    {
      Ascends(stream) && (cached != null ==> Lasting(cached.State()) == Lasting(Loaded(stream)))
    }

    /** Stores events and keeps the board in step with them. */
    method RecordWithBoard(events: seq<Stored>)
      requires Valid() && Ascends(stream + events)
      modifies this, cached
      ensures Valid() && stream == old(stream) + events && cached != null
    {
      hide Applied, Loaded;
      if cached == null {
        cached := LoadBoard(stream);
      }
      ghost var before, board := stream, cached.State();
      stream := stream + events;
      for i := 0 to |events|
        invariant stream == before + events && cached != null
        invariant old(cached) != null ==> cached == old(cached)
        invariant old(cached) == null ==> fresh(cached)
        invariant cached.State() == FoldedFrom(board, events[..i])
      {
        assert events[..i + 1][..i] == events[..i];
        cached.Apply(events[i].event, events[i].place);
      }
      assert events[..|events|] == events;
      AgreeingFolded(board, Loaded(before), events);
      LoadThenApply(before, events);
    }
  }
}
