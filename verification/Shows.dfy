/** What a board shows of a whole stream, besides its cards, notices and memories (see `Boards`). */
module Shows {
  import opened Wrappers
  import opened Boards

  // What the last event about it decides.

  datatype Slot = Request(id: string) | Rating(subject: string) | Segment(run: string) | Waits(id: string) | Queue | Runs

  predicate About(e: Event, slot: Slot) {
    match slot
    case Request(id) => e.RequestUpdated? && e.id == id
    case Rating(subject) => e.MessageRated? && e.subject == subject
    case Segment(run) => e.OvernightUpdated? && e.run == run
    case Waits(id) => (e.WaitingOnYou? && e.item.id == id) || (e.WaitingResolved? && e.waiting == id)
    case Queue => e.QueueChanged?
    case Runs => e.RunStateChanged?
  }

  /** The slot is as the event says, or as on an empty board when no event is about it. */
  predicate IsAsSaid(b: View, slot: Slot, e: Option<Event>)
    requires e.Some? ==> About(e.value, slot)
  {
    match slot
    case Request(id) => if e.Some? then id in b.requests && b.requests[id] == e.value.userRequest else id !in b.requests
    case Rating(subject) => if e.Some? then subject in b.ratings && b.ratings[subject] == e.value.rating else subject !in b.ratings
    case Segment(run) => if e.Some? then run in b.segments && b.segments[run] == e.value.segment else run !in b.segments
    case Waits(id) =>
      if e.Some? && e.value.WaitingOnYou? then id in b.waiting && b.waiting[id] == e.value.item else id !in b.waiting
    case Queue => b.queue == if e.Some? then e.value.queue else ""
    case Runs =>
      if e.Some? then b.run == e.value.state && b.runRequest == e.value.request else b.run == Idle && b.runRequest == None
  }

  /** The place of the last event about the slot. */
  ghost predicate LastAbout(stream: seq<Stored>, slot: Slot, i: nat) {
    && i < |stream| && About(stream[i].event, slot)
    && forall j :: i < j < |stream| ==> !About(stream[j].event, slot)
  }

  lemma AboutApplied(b: View, e: Event, place: int, slot: Slot)
    ensures About(e, slot) ==> IsAsSaid(Applied(b, e, place), slot, Some(e))
    ensures !About(e, slot) ==> forall was: Option<Event> | was.Some? ==> About(was.value, slot) ::
      IsAsSaid(b, slot, was) ==> IsAsSaid(Applied(b, e, place), slot, was)
  {
    hide Placed, Noticed, Remembered, HeadAfter, StreamingAfter;
  }

  /** Requests, ratings, segments, what waits for the user, the queue and the run are as the last event
      about them said. */
  lemma {:induction false} ShowsLast(stream: seq<Stored>, slot: Slot)
    ensures forall i: nat :: LastAbout(stream, slot, i) ==> IsAsSaid(Folded(stream), slot, Some(stream[i].event))
    ensures (forall i :: 0 <= i < |stream| ==> !About(stream[i].event, slot)) ==> IsAsSaid(Folded(stream), slot, None)
  {
    hide Applied, About, IsAsSaid;
    if stream == [] {
      NothingSaid(slot);
    } else {
      var before, last := stream[..|stream| - 1], stream[|stream| - 1];
      ShowsLast(before, slot);
      AboutApplied(Folded(before), last.event, last.place, slot);
      forall i: nat | LastAbout(stream, slot, i) ensures IsAsSaid(Folded(stream), slot, Some(stream[i].event)) {
        if i < |before| {
          assert LastAbout(before, slot, i) && before[i] == stream[i];
        }
      }
    }
  }

  lemma NothingSaid(slot: Slot)
    ensures IsAsSaid(EMPTY, slot, None)
  {
  }

  /** A key is listed once anything waited under it, whether it is over or not. */
  lemma {:induction false} ListedForGood(stream: seq<Stored>, key: string)
    ensures key in Folded(stream).waitsListed <==>
      exists i :: 0 <= i < |stream| && stream[i].event.WaitingOnYou? && stream[i].event.item.key == key
  {
    if stream != [] {
      var before, last := stream[..|stream| - 1], stream[|stream| - 1];
      ListedForGood(before, key);
      assert forall i :: 0 <= i < |before| ==> before[i] == stream[i];
    }
  }

  // Steps and decisions.

  datatype Kind = Worker | Orchestrator | Decision

  predicate IsStep(e: Event, kind: Kind) {
    match kind
    case Worker => e.WorkerStepped?
    case Orchestrator => e.OrchestratorStepped?
    case Decision => e.DecidedForYou?
  }

  function Content(e: Event, kind: Kind): string
    requires IsStep(e, kind)
  {
    match kind
    case Worker => e.workerStep.content
    case Orchestrator => e.step.content
    case Decision => e.decision.content
  }

  function StepsOf(b: View, kind: Kind): seq<Step> {
    match kind
    case Worker => b.workerSteps
    case Orchestrator => b.orchestratorSteps
    case Decision => b.decisions
  }

  /** `at` are the places of the steps in the stream, and the board lists them with these places. */
  ghost predicate Lists(stream: seq<Stored>, steps: seq<Step>, kind: Kind, at: seq<nat>) {
    && |at| == |steps|
    && (forall i: nat :: i in at <==> i < |stream| && IsStep(stream[i].event, kind))
    && (forall j, k :: 0 <= j < k < |at| ==> at[j] < at[k])
    && forall k :: 0 <= k < |at| ==>
         at[k] in at && at[k] < |stream| && IsStep(stream[at[k]].event, kind)
         && steps[k] == Step(stream[at[k]].place, Content(stream[at[k]].event, kind))
  }

  lemma StepApplied(b: View, e: Event, place: int, kind: Kind)
    ensures StepsOf(Applied(b, e, place), kind)
         == StepsOf(b, kind) + if IsStep(e, kind) then [Step(place, Content(e, kind))] else []
  {
    hide Placed, Noticed, Remembered, HeadAfter, StreamingAfter;
  }

  /** Every step of a kind is listed once, in the order of the stream, where it was stored. */
  lemma {:induction false} StepsInOrder(stream: seq<Stored>, kind: Kind) returns (at: seq<nat>)
    ensures Lists(stream, StepsOf(Folded(stream), kind), kind, at)
  {
    hide Applied, Lists, Content, IsStep;
    if stream == [] {
      at := [];
      NoSteps(kind);
    } else {
      var before, last := stream[..|stream| - 1], stream[|stream| - 1];
      assert before + [last] == stream;
      at := StepsInOrder(before, kind);
      StepApplied(Folded(before), last.event, last.place, kind);
      if IsStep(last.event, kind) {
        OneStepMore(before, last, StepsOf(Folded(before), kind), kind, at);
        at := at + [|before|];
      } else {
        NoStepMore(before, last, StepsOf(Folded(before), kind), kind, at);
        assert StepsOf(Folded(before), kind) + [] == StepsOf(Folded(before), kind);
      }
    }
  }

  lemma NoSteps(kind: Kind)
    ensures Lists([], StepsOf(Folded([]), kind), kind, [])
  {
  }

  lemma OneStepMore(before: seq<Stored>, last: Stored, steps: seq<Step>, kind: Kind, at: seq<nat>)
    requires Lists(before, steps, kind, at) && IsStep(last.event, kind)
    ensures Lists(before + [last], steps + [Step(last.place, Content(last.event, kind))], kind, at + [|before|])
  {
    hide Content, IsStep;
    var stream, more := before + [last], at + [|before|];
    assert forall i: nat :: i in more <==> i in at || i == |before|;
    assert forall k :: 0 <= k < |at| ==> at[k] in at && stream[at[k]] == before[at[k]];
  }

  lemma NoStepMore(before: seq<Stored>, last: Stored, steps: seq<Step>, kind: Kind, at: seq<nat>)
    requires Lists(before, steps, kind, at) && !IsStep(last.event, kind)
    ensures Lists(before + [last], steps, kind, at)
  {
    hide Content, IsStep;
    var stream := before + [last];
    assert forall k :: 0 <= k < |at| ==> at[k] in at && stream[at[k]] == before[at[k]];
  }

  // What streams.

  /** The event ends or replaces what streams of the message. */
  predicate Stops(e: Event, message: string) {
    || (e.RunStateChanged? && e.state != Running)
    || (e.MessageDelta? && e.message != message)
    || (e.MessageAppended? && e.assistant && e.appended == message)
  }

  /** All that was said of a message, delta after delta. */
  function Said(stream: seq<Stored>, message: string): string {
    if stream == [] then []
    else
      var last := stream[|stream| - 1].event;
      Said(stream[..|stream| - 1], message) + if last.MessageDelta? && last.message == message then last.text else []
  }

  /** The message's stream began at `i`, with its first delta since something stopped it, and has gone on
      since: all its deltas from there, for the request that ran then. */
  ghost predicate StreamsSince(stream: seq<Stored>, s: Streaming, i: nat) {
    && i < |stream| && stream[i].event.MessageDelta? && stream[i].event.message == s.message
    && (forall j :: i < j < |stream| ==> !Stops(stream[j].event, s.message))
    && s.text == Said(stream[i..], s.message) && s.request == Folded(stream[..i]).runRequest
    && (Folded(stream[..i]).streaming.Some? ==> Folded(stream[..i]).streaming.value.message != s.message)
  }

  ghost predicate StoppedAt(stream: seq<Stored>, i: nat, j: nat)
    requires i < |stream| && stream[i].event.MessageDelta?
  {
    i < j < |stream| && Stops(stream[j].event, stream[i].event.message)
  }

  /** Every delta was followed by what stops its message. */
  ghost predicate AllStopped(stream: seq<Stored>) {
    forall i: nat :: i < |stream| && stream[i].event.MessageDelta? ==> exists j: nat :: StoppedAt(stream, i, j)
  }

  /** All deltas but those of the message that streams were followed by what stops their message. */
  ghost predicate OthersStopped(stream: seq<Stored>, message: string) {
    forall i: nat :: i < |stream| && stream[i].event.MessageDelta? && stream[i].event.message != message ==>
      exists j: nat :: StoppedAt(stream, i, j)
  }

  ghost predicate StreamsAs(stream: seq<Stored>, streaming: Option<Streaming>) {
    if streaming.Some? then
      (exists i: nat :: StreamsSince(stream, streaming.value, i)) && OthersStopped(stream, streaming.value.message)
    else AllStopped(stream)
  }

  /** What streams is the message whose deltas came last and nothing stopped, from where they began;
      nothing streams exactly when every delta was followed by what stops its message. */
  lemma {:induction false} StreamsLast(stream: seq<Stored>)
    ensures StreamsAs(stream, Folded(stream).streaming)
  {
    if stream != [] {
      hide Applied, StreamsAs, StreamingAfter;
      var before, last := stream[..|stream| - 1], stream[|stream| - 1];
      StreamsLast(before);
      assert before + [last] == stream;
      StreamingApplied(Folded(before), last.event, last.place);
      StreamsNext(before, last);
    }
  }

  lemma StreamingApplied(b: View, e: Event, place: int)
    ensures Applied(b, e, place).streaming == StreamingAfter(b.streaming, b.runRequest, e)
  {
  }

  lemma StreamsNext(before: seq<Stored>, last: Stored)
    requires StreamsAs(before, Folded(before).streaming)
    ensures var b := Folded(before);
      StreamsAs(before + [last], StreamingAfter(b.streaming, b.runRequest, last.event))
  {
    var b := Folded(before);
    var streaming := StreamingAfter(b.streaming, b.runRequest, last.event);
    hide StreamsSince, AllStopped, OthersStopped, Folded;
    StoppedMore(before, last, if streaming.Some? then Some(streaming.value.message) else None);
    if streaming.Some? && b.streaming.Some? && streaming.value.message == b.streaming.value.message {
      var i: nat :| StreamsSince(before, b.streaming.value, i);
      GoesOn(before, last, b.streaming.value, streaming.value, i);
    } else if streaming.Some? {
      Begins(before, last, streaming.value);
    }
  }

  lemma StoppedMore(before: seq<Stored>, last: Stored, message: Option<string>)
    requires var was := Folded(before).streaming;
      if was.Some? then
        && OthersStopped(before, was.value.message)
        && (message != Some(was.value.message) ==> Stops(last.event, was.value.message))
      else AllStopped(before)
    requires last.event.MessageDelta? ==> message == Some(last.event.message)
    ensures if message.Some? then OthersStopped(before + [last], message.value) else AllStopped(before + [last])
  {
    hide Folded, Stops;
    var stream := before + [last];
    forall i: nat | i < |stream| && stream[i].event.MessageDelta? && Some(stream[i].event.message) != message
      ensures exists j: nat :: StoppedAt(stream, i, j)
    {
      var was := Folded(before).streaming;
      assert before[i] == stream[i];
      if was.Some? && was.value.message == stream[i].event.message {
        assert StoppedAt(stream, i, |before|);
      } else {
        var j: nat :| StoppedAt(before, i, j);
        assert StoppedAt(stream, i, j);
      }
    }
  }

  /** The request a stream serves stays, and the text grows by what the last event says of it. */
  lemma GoesOn(before: seq<Stored>, last: Stored, was: Streaming, s: Streaming, i: nat)
    requires StreamsSince(before, was, i) && !Stops(last.event, was.message)
    requires s == if last.event.MessageDelta? then was.(text := was.text + last.event.text) else was
    ensures StreamsSince(before + [last], s, i)
  {
    hide Folded;
    var stream := before + [last];
    assert stream[..i] == before[..i];
    assert stream[i..] == before[i..] + [last] && stream[i..][..|before| - i] == before[i..];
    assert forall j :: i < j < |before| ==> stream[j] == before[j];
  }

  lemma Begins(before: seq<Stored>, last: Stored, s: Streaming)
    requires last.event.MessageDelta? && s == Streaming(last.event.message, last.event.text, Folded(before).runRequest)
    requires Folded(before).streaming.Some? ==> Folded(before).streaming.value.message != s.message
    ensures StreamsSince(before + [last], s, |before|)
  {
    hide Folded;
    var stream := before + [last];
    assert stream[..|before|] == before && stream[|before|..] == [last];
    assert [last][..0] == [];
    assert Said([last], s.message) == Said([], s.message) + last.event.text;
  }
}
