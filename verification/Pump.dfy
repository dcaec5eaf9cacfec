/** The pump of a session's events: deltas are gathered for a moment and merged, everything else
    is stored as it comes. */
module Pump {
  import opened Wrappers

  datatype Stream = Message | Reasoning | Output

  datatype Request = Request(id: string, ask: string)

  datatype Event =
    | Progress(text: string)
    | Delta(stream: Stream, item: string, text: string)
    | ApprovalRequested(request: Request)
    | ApprovalResolved(approval: string)
    | Exited(code: Option<int>)
    | Other(payload: string)

  /** What the session's policy does with a request: answer it, or ask the user. */
  datatype Route = AskUser | Allow | Deny

  datatype Author = Cli | Policy | User

  /** A stored event, and who it came from: the CLI, or whoever answered one of its requests. */
  datatype Entry = Entry(event: Event, from: Author)

  /** What decides which requests wait for the user: what the CLI says, and what the user answers. */
  datatype Turn = Hears(event: Event) | Answers(approval: string)

  /** What the pump waits for: an event from the CLI, or the end of the delta window. */
  datatype Input = Receives(event: Event) | WindowEnds

  predicate Continues(last: Event, event: Event) {
    last.Delta? && event.Delta? && last.stream == event.stream && last.item == event.item
  }

  /** The events with one more, which goes into the last of them when `Continues` says so. */
  function MergeOnto(events: seq<Event>, event: Event): seq<Event> {
    if events != [] && Continues(events[|events| - 1], event) then
      var last := events[|events| - 1];
      events[..|events| - 1] + [last.(text := last.text + event.text)]
    else events + [event]
  }

  function MergeAll(onto: seq<Event>, events: seq<Event>): seq<Event>
    decreases |events|
  {
    if events == [] then onto
    else MergeOnto(MergeAll(onto, events[..|events| - 1]), events[|events| - 1])
  }

  /** The events with adjacent deltas of one item joined. */
  function Join(events: seq<Event>): seq<Event> {
    MergeAll([], events)
  }

  /** Joining two continuing deltas first changes nothing. */
  lemma MergeTwice(onto: seq<Event>, a: Event, b: Event)
    requires Continues(a, b)
    ensures MergeOnto(MergeOnto(onto, a), b) == MergeOnto(onto, a.(text := a.text + b.text))
  {
    if onto != [] && Continues(onto[|onto| - 1], a) {
      var text := onto[|onto| - 1].text;
      assert text + a.text + b.text == text + (a.text + b.text);
    } else {
      assert (onto + [a])[..|onto|] == onto;
    }
  }

  /** Merging into what waits, and storing that later, is merging into the whole. */
  lemma LastMerged(onto: seq<Event>, joined: seq<Event>, last: Event)
    ensures MergeAll(onto, MergeOnto(joined, last)) == MergeOnto(MergeAll(onto, joined), last)
  {
    var all := MergeOnto(joined, last);
    if joined != [] && Continues(joined[|joined| - 1], last) {
      var rest, first := joined[..|joined| - 1], joined[|joined| - 1];
      assert all[..|all| - 1] == rest;
      MergeTwice(MergeAll(onto, rest), first, last);
    } else {
      assert all[..|all| - 1] == joined;
    }
  }

  lemma {:induction false} MergeInTurn(onto: seq<Event>, a: seq<Event>, b: seq<Event>)
    ensures MergeAll(onto, a + b) == MergeAll(MergeAll(onto, a), b)
  {
    if b == [] {
      assert a + b == a;
    } else {
      MergeInTurn(onto, a, b[..|b| - 1]);
      assert (a + b)[..|a + b| - 1] == a + b[..|b| - 1];
    }
  }

  // What joining keeps.

  /** What one item's deltas say, one after another. */
  function TextOf(events: seq<Event>, stream: Stream, item: string): string {
    if events == [] then []
    else
      var last := events[|events| - 1];
      TextOf(events[..|events| - 1], stream, item)
      + if last.Delta? && last.stream == stream && last.item == item then last.text else []
  }

  /** The events that are no deltas. */
  function Others(events: seq<Event>): seq<Event> {
    if events == [] then []
    else
      var last := events[|events| - 1];
      Others(events[..|events| - 1]) + if last.Delta? then [] else [last]
  }

  lemma {:induction false} MergeOntoKeeps(events: seq<Event>, event: Event, stream: Stream, item: string)
    ensures TextOf(MergeOnto(events, event), stream, item) == TextOf(events + [event], stream, item)
    ensures Others(MergeOnto(events, event)) == Others(events + [event])
  {
    MergeOntoText(events, event, stream, item);
    MergeOntoOthers(events, event);
  }

  lemma {:induction false} MergeOntoText(events: seq<Event>, event: Event, stream: Stream, item: string)
    ensures TextOf(MergeOnto(events, event), stream, item) == TextOf(events + [event], stream, item)
  {
    assert (events + [event])[..|events|] == events;
    if events != [] && Continues(events[|events| - 1], event) {
      var merged := MergeOnto(events, event);
      assert merged[..|merged| - 1] == events[..|events| - 1];
    }
  }

  lemma {:induction false} MergeOntoOthers(events: seq<Event>, event: Event)
    ensures Others(MergeOnto(events, event)) == Others(events + [event])
  {
    assert (events + [event])[..|events|] == events;
    if events != [] && Continues(events[|events| - 1], event) {
      var merged := MergeOnto(events, event);
      assert merged[..|merged| - 1] == events[..|events| - 1];
    }
  }

  /** Joining keeps what each item says and every other event, in order. */
  lemma {:induction false} JoinKeeps(events: seq<Event>, stream: Stream, item: string)
    ensures TextOf(Join(events), stream, item) == TextOf(events, stream, item)
    ensures Others(Join(events)) == Others(events)
  {
    if events != [] {
      var before, last := events[..|events| - 1], events[|events| - 1];
      JoinKeeps(before, stream, item);
      MergeOntoKeeps(Join(before), last, stream, item);
      assert (Join(before) + [last])[..|Join(before)|] == Join(before);
    }
  }

  /** And leaves no two deltas of one item side by side. */
  lemma {:induction false} JoinIsJoined(events: seq<Event>)
    ensures var joined := Join(events);
      forall i :: 0 < i < |joined| && joined[i - 1].Delta? && joined[i].Delta? ==>
        joined[i - 1].stream != joined[i].stream || joined[i - 1].item != joined[i].item
  {
    NoneContinues(events);
  }

  lemma {:induction false} NoneContinues(events: seq<Event>)
    ensures var joined := Join(events); forall i :: 0 < i < |joined| ==> !Continues(joined[i - 1], joined[i])
  {
    if events != [] {
      NoneContinues(events[..|events| - 1]);
      var before, last := Join(events[..|events| - 1]), events[|events| - 1];
      var joined := MergeOnto(before, last);
      forall i | 0 < i < |joined| ensures !Continues(joined[i - 1], joined[i]) {
        if i < |before| {
          assert !Continues(before[i - 1], before[i]);
          assert joined[i - 1] == before[i - 1];
        }
      }
    }
  }

  function Texts(events: seq<Event>): string
    requires forall e :: e in events ==> e.Delta?
  {
    if events == [] then [] else Texts(events[..|events| - 1]) + events[|events| - 1].text
  }

  /** One event as it was, or deltas of one item with their text in turn. */
  predicate Stands(piece: seq<Event>, e: Event) {
    || piece == [e]
    || (e.Delta? && |piece| > 1
        && (forall d :: d in piece ==> d.Delta? && d.stream == e.stream && d.item == e.item)
        && e.text == Texts(piece))
  }

  /** `cuts` cuts the events into pieces, and each of `joined` stands for its piece. */
  ghost predicate CutInto(events: seq<Event>, joined: seq<Event>, cuts: seq<nat>) {
    && |cuts| == |joined| + 1 && cuts[0] == 0 && cuts[|joined|] == |events|
    && forall i :: 0 <= i < |joined| ==> StandsAt(events, joined[i], cuts, i)
  }

  predicate StandsAt(events: seq<Event>, e: Event, cuts: seq<nat>, i: nat)
    requires i + 1 < |cuts|
  {
    cuts[i] < cuts[i + 1] <= |events| && Stands(events[cuts[i]..cuts[i + 1]], e)
  }

  /** Joining cuts the events, in order, into single events and runs of deltas of one item. */
  lemma {:induction false} JoinCuts(events: seq<Event>) returns (cuts: seq<nat>)
    ensures CutInto(events, Join(events), cuts)
  {
    if events == [] {
      cuts := [0];
    } else {
      var before, last := events[..|events| - 1], events[|events| - 1];
      var fewer := JoinCuts(before);
      cuts := NextCut(before, last, Join(before), fewer);
      assert events == before + [last];
    }
  }

  lemma NextCut(before: seq<Event>, last: Event, joined: seq<Event>, fewer: seq<nat>) returns (cuts: seq<nat>)
    requires CutInto(before, joined, fewer)
    ensures CutInto(before + [last], MergeOnto(joined, last), cuts)
  {
    hide Stands, StandsAt;
    var events, n := before + [last], |joined|;
    forall i | 0 <= i < n ensures StandsAt(events, joined[i], fewer, i) {
      StandsLonger(before, last, joined[i], fewer, i);
    }
    if joined != [] && Continues(joined[n - 1], last) {
      cuts := fewer[..n] + [|events|];
      LastStands(before, last, joined[n - 1], fewer, n - 1, cuts);
    } else {
      cuts := fewer + [|events|];
      StandsAlone(before, last, cuts, n);
    }
    forall i | 0 <= i < n - 1 || (0 <= i < n && |cuts| == n + 2) ensures StandsAt(events, joined[i], cuts, i) {
      StandsSame(events, joined[i], fewer, cuts, i);
    }
  }

  lemma StandsLonger(before: seq<Event>, last: Event, e: Event, cuts: seq<nat>, i: nat)
    requires i + 1 < |cuts| && StandsAt(before, e, cuts, i)
    ensures StandsAt(before + [last], e, cuts, i)
  {
    assert before[cuts[i]..cuts[i + 1]] == (before + [last])[cuts[i]..cuts[i + 1]];
  }

  lemma StandsSame(events: seq<Event>, e: Event, cuts: seq<nat>, others: seq<nat>, i: nat)
    requires i + 1 < |cuts| && i + 1 < |others| && StandsAt(events, e, cuts, i)
    requires cuts[i] == others[i] && cuts[i + 1] == others[i + 1]
    ensures StandsAt(events, e, others, i)
  {
  }

  lemma LastStands(before: seq<Event>, last: Event, e: Event, fewer: seq<nat>, i: nat, cuts: seq<nat>)
    requires |fewer| == |cuts| == i + 2 && StandsAt(before, e, fewer, i) && fewer[i + 1] == |before|
    requires cuts[i] == fewer[i] && cuts[i + 1] == |before| + 1 && Continues(e, last)
    ensures StandsAt(before + [last], e.(text := e.text + last.text), cuts, i)
  {
    var piece := before[fewer[i]..fewer[i + 1]];
    OneMoreStands(piece, e, last);
    assert (before + [last])[cuts[i]..cuts[i + 1]] == piece + [last];
  }

  lemma StandsAlone(before: seq<Event>, last: Event, cuts: seq<nat>, i: nat)
    requires |cuts| == i + 2 && cuts[i] == |before| && cuts[i + 1] == |before| + 1
    ensures StandsAt(before + [last], last, cuts, i)
  {
    assert (before + [last])[cuts[i]..cuts[i + 1]] == [last];
  }

  lemma OneMoreStands(piece: seq<Event>, e: Event, last: Event)
    requires Stands(piece, e) && Continues(e, last)
    ensures Stands(piece + [last], e.(text := e.text + last.text))
  {
    assert (piece + [last])[..|piece|] == piece;
    if piece == [e] {
      assert Texts(piece) == Texts([]) + e.text;
    }
  }

  lemma JoinOne(events: seq<Event>, event: Event)
    ensures Join(events + [event]) == MergeOnto(Join(events), event)
  {
    assert (events + [event])[..|events|] == events;
  }

  lemma HeardOne(heard: seq<Event>, inputs: seq<Input>, i: nat)
    requires i < |inputs| && heard + Heard(inputs[i..]) == Heard(inputs)
    ensures inputs[i].Receives? && !inputs[i].event.Progress? ==>
      if inputs[i].event.Exited? then heard + [inputs[i].event] == Heard(inputs)
      else heard + [inputs[i].event] + Heard(inputs[i + 1..]) == Heard(inputs)
    ensures inputs[i].WindowEnds? || inputs[i].event.Progress? ==> heard + Heard(inputs[i + 1..]) == Heard(inputs)
  {
    hide Heard;
    var input, tail := inputs[i], inputs[i + 1..];
    assert inputs[i..] == [input] + tail;
    HeardNext(input, tail);
    if input.Receives? {
      var event, more := [input.event], Heard(tail);
      assert heard + (event + more) == heard + event + more;
    }
  }

  lemma HeardNext(input: Input, tail: seq<Input>)
    ensures Heard([input] + tail) ==
      if input.WindowEnds? || input.event.Progress? then Heard(tail)
      else if input.event.Exited? then [input.event]
      else [input.event] + Heard(tail)
  {
    assert ([input] + tail)[1..] == tail;
  }

  // The pump.

  /** What the CLI said until its first exit, progress aside. */
  function Heard(inputs: seq<Input>): seq<Event> {
    if inputs == [] then []
    else match inputs[0]
      case WindowEnds => Heard(inputs[1..])
      case Receives(event) =>
        if event.Progress? then Heard(inputs[1..])
        else if event.Exited? then [event]
        else [event] + Heard(inputs[1..])
  }

  /** The stored events that came from the CLI. */
  function FromCli(entries: seq<Entry>): seq<Event> {
    if entries == [] then []
    else
      var last := entries[|entries| - 1];
      FromCli(entries[..|entries| - 1]) + if last.from == Cli then [last.event] else []
  }

  function Answerer(route: Route): Author {
    if route == AskUser then User else Policy
  }

  predicate Asks(e: Entry, id: string, author: Author, route: Request -> Route) {
    e.from == Cli && e.event.ApprovalRequested? && e.event.request.id == id && Answerer(route(e.event.request)) == author
  }

  predicate IsAnswer(e: Entry, id: string, author: Author) {
    e.from == author && e.event == ApprovalResolved(id)
  }

  /** How many stored requests with this id were for this author to answer. */
  function Asked(entries: seq<Entry>, id: string, author: Author, route: Request -> Route): nat {
    if entries == [] then 0
    else
      Asked(entries[..|entries| - 1], id, author, route)
      + if Asks(entries[|entries| - 1], id, author, route) then 1 else 0
  }

  function Answered(entries: seq<Entry>, id: string, author: Author): nat {
    if entries == [] then 0
    else Answered(entries[..|entries| - 1], id, author) + if IsAnswer(entries[|entries| - 1], id, author) then 1 else 0
  }

  /** At every moment no more answers were stored than requests that were the author's to answer:
      an answer comes after its request, each request is answered once, the user answers none the
      policy decides, and the policy none that goes to the user. */
  ghost predicate AnswersFollow(entries: seq<Entry>, route: Request -> Route) {
    && (forall i :: 0 <= i < |entries| && entries[i].from != Cli ==> entries[i].event.ApprovalResolved?)
    && forall k, id, author :: 0 <= k <= |entries| && author != Cli ==>
         Answered(entries[..k], id, author) <= Asked(entries[..k], id, author, route)
  }

  /** What the CLI was heard to say. */
  function HeardIn(turns: seq<Turn>): seq<Event> {
    if turns == [] then []
    else
      var last := turns[|turns| - 1];
      HeardIn(turns[..|turns| - 1]) + if last.Hears? then [last.event] else []
  }

  /** The requests put to the user that neither the CLI has resolved nor the user answered since. */
  function Outstanding(turns: seq<Turn>, route: Request -> Route): set<string> {
    if turns == [] then {}
    else
      var before := Outstanding(turns[..|turns| - 1], route);
      match turns[|turns| - 1]
      case Answers(approval) => before - {approval}
      case Hears(event) => WaitingAfter(before, event, route)
  }

  lemma OneTurn(turns: seq<Turn>, turn: Turn)
    ensures (turns + [turn])[..|turns|] == turns
    ensures HeardIn(turns + [turn]) == HeardIn(turns) + if turn.Hears? then [turn.event] else []
  {
    assert (turns + [turn])[..|turns|] == turns;
  }

  /** What hearing an event does to the requests that wait. */
  function WaitingAfter(waiting: set<string>, event: Event, route: Request -> Route): set<string> {
    if event.ApprovalRequested? && route(event.request) == AskUser then waiting + {event.request.id}
    else if event.ApprovalResolved? then waiting - {event.approval}
    else waiting
  }

  function Entries(events: seq<Event>): seq<Entry> {
    seq(|events|, i requires 0 <= i < |events| => Entry(events[i], Cli))
  }

  lemma {:induction false} FromCliJoins(a: seq<Entry>, b: seq<Entry>)
    ensures FromCli(a + b) == FromCli(a) + FromCli(b)
  {
    if b == [] {
      assert a + b == a;
    } else {
      FromCliJoins(a, b[..|b| - 1]);
      assert (a + b)[..|a + b| - 1] == a + b[..|b| - 1];
    }
  }

  lemma {:induction false} FromCliEntries(events: seq<Event>)
    ensures FromCli(Entries(events)) == events
  {
    if events != [] {
      FromCliEntries(events[..|events| - 1]);
      assert Entries(events)[..|events| - 1] == Entries(events[..|events| - 1]);
    }
  }

  /** One more entry, which if it is an answer has a request left to answer. */
  lemma {:induction false} OneStored(entries: seq<Entry>, e: Entry, route: Request -> Route)
    requires AnswersFollow(entries, route)
    requires e.from != Cli ==>
      && e.event.ApprovalResolved?
      && Answered(entries, e.event.approval, e.from) < Asked(entries, e.event.approval, e.from, route)
    ensures AnswersFollow(entries + [e], route)
    ensures FromCli(entries + [e]) == FromCli(entries) + if e.from == Cli then [e.event] else []
    ensures forall id, author ::
      && Answered(entries + [e], id, author) == Answered(entries, id, author) + (if IsAnswer(e, id, author) then 1 else 0)
      && Asked(entries + [e], id, author, route) == Asked(entries, id, author, route) + if Asks(e, id, author, route) then 1 else 0
  {
    var more := entries + [e];
    assert more[..|entries|] == entries && entries[..|entries|] == entries && more[..|more|] == more;
    forall k, id, author | 0 <= k <= |more| && author != Cli
      ensures Answered(more[..k], id, author) <= Asked(more[..k], id, author, route)
    {
      if k <= |entries| {
        assert more[..k] == entries[..k];
      } else {
        assert Answered(entries[..|entries|], id, author) <= Asked(entries[..|entries|], id, author, route);
      }
    }
  }

  /** Events of the CLI may be stored at any time. */
  lemma {:induction false} AllStored(entries: seq<Entry>, events: seq<Event>, route: Request -> Route)
    requires AnswersFollow(entries, route)
    ensures var more := entries + Entries(events);
      && AnswersFollow(more, route)
      && forall id, author ::
        && (author != Cli ==> Answered(more, id, author) == Answered(entries, id, author))
        && Asked(more, id, author, route) >= Asked(entries, id, author, route)
    ensures forall id, author :: events != [] ==>
      Asked(entries + Entries(events), id, author, route) >=
        Asked(entries, id, author, route) + if Asks(Entry(events[|events| - 1], Cli), id, author, route) then 1 else 0
  {
    if events == [] {
      assert entries + Entries(events) == entries;
    } else {
      var before, last := events[..|events| - 1], Entry(events[|events| - 1], Cli);
      AllStored(entries, before, route);
      assert entries + Entries(events) == entries + Entries(before) + [last];
      hide AnswersFollow, Asked, Answered, Entries, Asks;
      OneStored(entries + Entries(before), last, route);
    }
  }

  lemma {:induction false} SomeAsks(entries: seq<Entry>, id: string, author: Author, route: Request -> Route)
    requires Asked(entries, id, author, route) > 0
    ensures exists j :: 0 <= j < |entries| && Asks(entries[j], id, author, route)
  {
    if !Asks(entries[|entries| - 1], id, author, route) {
      SomeAsks(entries[..|entries| - 1], id, author, route);
      var j :| 0 <= j < |entries| - 1 && Asks(entries[..|entries| - 1][j], id, author, route);
      assert Asks(entries[j], id, author, route);
    }
  }

  /** So before every stored answer stands a request of the CLI with its id, for its author. */
  lemma AnswerHasRequest(entries: seq<Entry>, i: nat, route: Request -> Route)
    requires AnswersFollow(entries, route) && i < |entries| && entries[i].from != Cli
    ensures entries[i].event.ApprovalResolved?
    ensures exists j :: 0 <= j < i && Asks(entries[j], entries[i].event.approval, entries[i].from, route)
  {
    var upTo, id, author := entries[..i + 1], entries[i].event.approval, entries[i].from;
    assert upTo[..i] == entries[..i];
    assert Answered(upTo, id, author) > 0 && !Asks(entries[i], id, author, route);
    SomeAsks(entries[..i], id, author, route);
    var j :| 0 <= j < i && Asks(entries[..i][j], id, author, route);
    assert Asks(entries[j], id, author, route);
  }

  class Session {
    var stored: seq<Entry>
    /** Requests put to the user, and those whose answer the user gave but that is not stored yet. */
    var pending: set<string>
    var answering: multiset<string>
    const route: Request -> Route
    ghost var turns: seq<Turn>

    constructor (route: Request -> Route)
      ensures this.route == route && stored == [] && pending == {} && answering == multiset{} && turns == [] && Valid()
    {
      this.route := route;
      stored, pending, answering := [], {}, multiset{};
      turns := [];
    }

    /** Answers stored, on their way or still to be given. */
    ghost function Claimed(id: string, author: Author): nat
      reads this
    {
      Answered(stored, id, author)
      + if author == User then answering[id] + (if id in pending then 1 else 0) else 0
    }

    ghost predicate Valid()
      reads this
    {
      && AnswersFollow(stored, route)
      && pending == Outstanding(turns, route)
      && forall id, author :: author != Cli ==> Claimed(id, author) <= Asked(stored, id, author, route)
    }

    /** What the user's answers leave as it was. */
    twostate predicate Undisturbed()
      reads this
    {
      && HeardIn(turns) == old(HeardIn(turns)) && FromCli(stored) == old(FromCli(stored))
      && forall id, author :: author != Cli ==>
           && Claimed(id, author) <= old(Claimed(id, author))
           && (author == Policy ==> Answered(stored, id, author) == old(Answered(stored, id, author)))
           && Asked(stored, id, author, route) == old(Asked(stored, id, author, route))
    }

    /** The user answers a request: it waits no longer, and the answer is on its way to the CLI. */
    method BeginAnswer(approval: string) returns (found: bool)
      requires Valid()
      modifies this
      ensures Valid() && Undisturbed()
      ensures found <==> approval in old(pending)
      ensures pending == old(pending) - {approval} && stored == old(stored)
      ensures answering == if found then old(answering) + multiset{approval} else old(answering)
    {
      if approval !in pending {
        return false;
      }
      OneTurn(turns, Answers(approval));
      pending, answering := pending - {approval}, answering + multiset{approval};
      turns := turns + [Answers(approval)];
      return true;
    }

    /** Once the CLI has the answer it is stored; if it could not be delivered it is lost. */
    method EndAnswer(approval: string, delivered: bool)
      requires Valid() && approval in answering
      modifies this
      ensures Valid() && Undisturbed() && pending == old(pending) && answering == old(answering) - multiset{approval}
      ensures stored == old(stored) + if delivered then [Entry(ApprovalResolved(approval), User)] else []
    {
      hide AnswersFollow, FromCli, HeardIn, Outstanding, Asked, Answered;
      var answer := Entry(ApprovalResolved(approval), User);
      assert Claimed(approval, User) <= Asked(stored, approval, User, route);
      OneStored(stored, answer, route);
      answering := answering - multiset{approval};
      if delivered {
        stored := stored + [answer];
      } else {
        assert stored + [] == stored;
      }
    }

    /** Meanwhile: the user may answer any requests, and answers under way may arrive. */
    method Meanwhile()
      requires Valid()
      modifies this
      ensures Valid() && Undisturbed()
    {
      var steps: nat := *;
      while steps > 0
        invariant Valid() && Undisturbed()
      {
        steps := steps - 1;
        var begins: bool := *;
        if begins {
          var approval: string := *;
          var found := BeginAnswer(approval);
        } else if answering != multiset{} {
          var approval :| approval in answering;
          var delivered: bool := *;
          EndAnswer(approval, delivered);
        }
      }
    }

    method RecordRaw(events: seq<Event>)
      requires Valid()
      modifies this
      ensures Valid() && HeardIn(turns) == old(HeardIn(turns))
      ensures FromCli(stored) == old(FromCli(stored)) + events
      ensures forall id, author :: author != Cli ==>
        && Claimed(id, author) <= old(Claimed(id, author))
        && Asked(stored, id, author, route) >= old(Asked(stored, id, author, route))
           + if events != [] && Asks(Entry(events[|events| - 1], Cli), id, author, route) then 1 else 0
    {
      hide AnswersFollow, FromCli, HeardIn, Outstanding, Asked, Answered, Entries;
      Meanwhile();
      FromCliJoins(stored, Entries(events));
      FromCliEntries(events);
      AllStored(stored, events, route);
      stored := stored + Entries(events);
      Meanwhile();
    }

    /** Stores one event of the CLI, and does what it calls for. */
    method Handle(event: Event)
      requires Valid()
      modifies this
      ensures Valid() && FromCli(stored) == old(FromCli(stored)) + [event]
      ensures HeardIn(turns) == old(HeardIn(turns)) + [event]
    {
      hide AnswersFollow, FromCli, HeardIn, Asked, Answered, Outstanding;
      match event {
        case ApprovalRequested(request) => HandleRequest(request);
        case ApprovalResolved(approval) =>
          Note(event, pending - {approval});
          RecordRaw([event]);
        case _ =>
          Note(event, pending);
          RecordRaw([event]);
      }
    }

    method HandleRequest(request: Request)
      requires Valid()
      modifies this
      ensures Valid() && FromCli(stored) == old(FromCli(stored)) + [ApprovalRequested(request)]
      ensures HeardIn(turns) == old(HeardIn(turns)) + [ApprovalRequested(request)]
    {
      hide AnswersFollow, FromCli, HeardIn, Asked, Answered, Outstanding;
      ghost var author := Answerer(route(request));
      ghost var stamped := Entry(ApprovalRequested(request), Cli);
      assert Claimed(request.id, author) <= Asked(stored, request.id, author, route);
      assert Asks(stamped, request.id, author, route);
      RecordRaw([ApprovalRequested(request)]);
      var answered := RouteApproval(request);
    }

    /** Hearing an event settles which requests wait. */
    method Note(event: Event, waiting: set<string>)
      requires Valid() && waiting == WaitingAfter(pending, event, route)
      requires forall id :: id in waiting && id !in pending ==> Claimed(id, User) < Asked(stored, id, User, route)
      modifies this`pending, this`turns
      ensures Valid() && pending == waiting && HeardIn(turns) == old(HeardIn(turns)) + [event]
    {
      OneTurn(turns, Hears(event));
      hide AnswersFollow, FromCli, HeardIn, Asked, Answered, WaitingAfter;
      pending := waiting;
      turns := turns + [Hears(event)];
    }

    /** Puts a request to the user, or gives the policy's answer, which is stored when the CLI takes it. */
    method RouteApproval(request: Request) returns (answered: bool)
      requires Valid()
      requires var author := Answerer(route(request)); Claimed(request.id, author) < Asked(stored, request.id, author, route)
      modifies this
      ensures Valid() && FromCli(stored) == old(FromCli(stored))
      ensures HeardIn(turns) == old(HeardIn(turns)) + [ApprovalRequested(request)]
      ensures route(request) == AskUser ==>
        !answered && stored == old(stored) && pending == old(pending) + {request.id}
      ensures forall id ::
        Answered(stored, id, Policy) == old(Answered(stored, id, Policy)) + if answered && id == request.id then 1 else 0
    {
      hide AnswersFollow, FromCli, HeardIn, Asked, Answered, Outstanding;
      if route(request) == AskUser {
        Note(ApprovalRequested(request), pending + {request.id});
        return false;
      }
      Note(ApprovalRequested(request), pending);
      Meanwhile();
      answered := *;
      if answered {
        StoreAnswer(request);
      }
    }

    method StoreAnswer(request: Request)
      requires Valid() && route(request) != AskUser
      requires Claimed(request.id, Policy) < Asked(stored, request.id, Policy, route)
      modifies this
      ensures Valid() && FromCli(stored) == old(FromCli(stored)) && HeardIn(turns) == old(HeardIn(turns))
      ensures forall id ::
        Answered(stored, id, Policy) == old(Answered(stored, id, Policy)) + if id == request.id then 1 else 0
    {
      hide AnswersFollow, FromCli, HeardIn, Asked, Answered, Outstanding;
      Meanwhile();
      OneStored(stored, Entry(ApprovalResolved(request.id), Policy), route);
      stored := stored + [Entry(ApprovalResolved(request.id), Policy)];
      Meanwhile();
    }

    /** Stores what the CLI says as it comes, while the user may answer requests at any moment. */
    method Run(inputs: seq<Input>)
      requires Valid() && stored == [] && turns == []
      modifies this
      ensures Join(FromCli(stored)) == Join(Heard(inputs))
      ensures AnswersFollow(stored, route)
      ensures HeardIn(turns) == Heard(inputs) && pending == Outstanding(turns, route)
    {
      hide Heard, MergeOnto, MergeAll, FromCli, AnswersFollow, HeardIn, Asked, Answered;
      var deltas: seq<Event> := [];
      var deadline := false;
      var i := 0;
      NothingYet(inputs);
      while i < |inputs|
        invariant i <= |inputs| && Valid()
        invariant HeardIn(turns) + Heard(inputs[i..]) == Heard(inputs)
        invariant MergeAll(Join(FromCli(stored)), deltas) == Join(HeardIn(turns))
        invariant deadline <==> deltas != []
      {
        Meanwhile();
        var input := inputs[i];
        HeardOne(HeardIn(turns), inputs, i);
        i := i + 1;
        match input
        case WindowEnds =>
          if deadline {
            deadline := false;
            Flush(deltas);
            deltas := [];
          }
        case Receives(event) =>
          if event.Progress? {
            continue;
          }
          JoinOne(HeardIn(turns), event);
          if event.Delta? {
            LastMerged(Join(FromCli(stored)), deltas, event);
            deltas := Gather(deltas, event);
            deadline := true;
            Note(event, pending);
          } else {
            deadline := false;
            Flush(deltas);
            deltas := [];
            JoinOne(FromCli(stored), event);
            Handle(event);
            NothingMerged(Join(FromCli(stored)));
            if event.Exited? {
              break;
            }
          }
      }
      NothingHeard(inputs);
      assert HeardIn(turns) + [] == HeardIn(turns);
      Flush(deltas);
    }

    method Flush(deltas: seq<Event>)
      requires Valid()
      modifies this
      ensures Valid() && HeardIn(turns) == old(HeardIn(turns))
      ensures Join(FromCli(stored)) == MergeAll(Join(old(FromCli(stored))), deltas)
      ensures MergeAll(Join(FromCli(stored)), []) == Join(FromCli(stored))
    {
      MergeInTurn([], FromCli(stored), deltas);
      hide AnswersFollow, FromCli, HeardIn, Asked, Answered;
      RecordRaw(deltas);
    }
  }

  /** A delta joins the one before it when both belong to one item. */
  method Gather(deltas: seq<Event>, event: Event) returns (more: seq<Event>)
    ensures more == MergeOnto(deltas, event) && more != []
  {
    if deltas != [] && Continues(deltas[|deltas| - 1], event) {
      var last := deltas[|deltas| - 1];
      return deltas[|deltas| - 1 := last.(text := last.text + event.text)];
    }
    return deltas + [event];
  }

  lemma NothingYet(inputs: seq<Input>)
    ensures HeardIn([]) + Heard(inputs[0..]) == Heard(inputs)
    ensures MergeAll(Join(FromCli([])), []) == Join(HeardIn([]))
  {
    assert inputs[0..] == inputs;
  }

  lemma NothingMerged(onto: seq<Event>)
    ensures MergeAll(onto, []) == onto
  {
  }

  lemma NothingHeard(inputs: seq<Input>)
    ensures Heard(inputs[|inputs|..]) == []
  {
  }
}
