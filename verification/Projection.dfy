/** The catalog folded from events that may be applied in another order than they were committed. */
module Projection {
  import opened Wrappers

  type Id = string

  datatype Lifecycle = Active | Archived | Deleting

  datatype Conversation = Conversation(
    title: string, pinned: Option<int>, setup: Option<string>, lifecycle: Lifecycle,
    fallback: string, quotaWait: string, updated: int)

  datatype Event =
    | ProjectCreated(id: Id, project: string)
    | ProjectUpdated(id: Id, project: string)
    | ProjectRemoved(id: Id)
    | ConversationCreated(id: Id, conversation: Conversation)
    | ConversationRenamed(id: Id, title: string)
    | ConversationPinned(id: Id, pinned: Option<int>)
    | ConversationSetUp(id: Id, setup: string)
    | LifecycleChanged(id: Id, lifecycle: Lifecycle)
    | ConversationFallback(id: Id, fallback: string)
    | ConversationWaiting(id: Id, wait: string)
    | MessageAppended(id: Id, created: int)
    | ConversationDeleted(id: Id)
    | SettingsChanged(settings: string)
    | Elsewhere

  /** An event with its place in the log and the time it was taken in. */
  datatype Stamped = Stamped(event: Event, place: int, at: int)

  type Places = map<Id, int>

  /** `titles` and the other places say which event last set a field. */
  datatype Catalog = Catalog(
    projects: map<Id, string>, conversations: map<Id, Conversation>, settings: string,
    titles: Places, pins: Places, setups: Places, lifecycles: Places, updates: Places, settingsPlace: int)

  const EMPTY := Catalog(map[], map[], "", map[], map[], map[], map[], map[], 0)

  function Max(a: int, b: int): int {
    if a < b then b else a
  }

  predicate IsLatest(places: Places, id: Id, place: int) {
    id in places ==> places[id] <= place
  }

  /** The field's place after a writer at `place` came by. */
  function Noted(places: Places, id: Id, place: int): Places {
    places[id := if id in places then Max(places[id], place) else place]
  }

  function WithConversation(c: Catalog, id: Id, conversation: Conversation): Catalog {
    c.(conversations := c.conversations[id := conversation])
  }

  /** The catalog once an event is applied. */
  function Applied(c: Catalog, s: Stamped): Catalog {
    if !ChangesConversation(s.event) then AppliedElsewhere(c, s)
    else if s.event.id in c.conversations then Changed(c, s, c.conversations[s.event.id])
    else c
  }

  function ProjectsAfter(c: Catalog, s: Stamped): map<Id, string> {
    match s.event
    case ProjectCreated(id, project) => c.projects[id := project]
    case ProjectUpdated(id, project) =>
      if id in c.projects && IsLatest(c.updates, id, s.place) then c.projects[id := project] else c.projects
    case ProjectRemoved(id) => c.projects - {id}
    case _ => c.projects
  }

  function ConversationsAfter(conversations: map<Id, Conversation>, e: Event): map<Id, Conversation> {
    match e
    case ConversationCreated(id, conversation) => conversations[id := conversation]
    case ConversationDeleted(id) => conversations - {id}
    case _ => conversations
  }

  predicate ChangesSettings(c: Catalog, s: Stamped) {
    s.event.SettingsChanged? && c.settingsPlace <= s.place
  }

  function AppliedElsewhere(c: Catalog, s: Stamped): Catalog {
    c.(
      projects := ProjectsAfter(c, s),
      updates := if s.event.ProjectUpdated? && s.event.id in c.projects then Noted(c.updates, s.event.id, s.place) else c.updates,
      conversations := ConversationsAfter(c.conversations, s.event),
      settings := if ChangesSettings(c, s) then s.event.settings else c.settings,
      settingsPlace := if ChangesSettings(c, s) then s.place else c.settingsPlace)
  }

  predicate ChangesConversation(e: Event) {
    || e.ConversationRenamed? || e.ConversationPinned? || e.ConversationSetUp?
    || e.LifecycleChanged? || e.ConversationFallback? || e.ConversationWaiting? || e.MessageAppended?
  }

  /** A stored conversation once an event about it is applied. */
  function Updated(c: Catalog, s: Stamped, known: Conversation): Conversation {
    match s.event
    case ConversationRenamed(id, title) =>
      var touched := known.(updated := Max(known.updated, s.at));
      if IsLatest(c.titles, id, s.place) then touched.(title := title) else touched
    case ConversationPinned(id, pinned) => if IsLatest(c.pins, id, s.place) then known.(pinned := pinned) else known
    case ConversationSetUp(id, setup) => if IsLatest(c.setups, id, s.place) then known.(setup := Some(setup)) else known
    case LifecycleChanged(id, lifecycle) =>
      if IsLatest(c.lifecycles, id, s.place) then known.(lifecycle := lifecycle, updated := Max(known.updated, s.at)) else known
    case ConversationFallback(_, fallback) => known.(fallback := fallback)
    case ConversationWaiting(_, wait) => known.(quotaWait := wait)
    case MessageAppended(_, created) => known.(updated := Max(known.updated, created))
    case _ => known
  }

  /** The catalog once an event about a stored conversation is applied. */
  function Changed(c: Catalog, s: Stamped, known: Conversation): Catalog
    requires ChangesConversation(s.event)
  {
    var id := s.event.id;
    WithConversation(c, id, Updated(c, s, known)).(
      titles := if s.event.ConversationRenamed? then Noted(c.titles, id, s.place) else c.titles,
      pins := if s.event.ConversationPinned? then Noted(c.pins, id, s.place) else c.pins,
      setups := if s.event.ConversationSetUp? then Noted(c.setups, id, s.place) else c.setups,
      lifecycles := if s.event.LifecycleChanged? then Noted(c.lifecycles, id, s.place) else c.lifecycles)
  }

  function Folded(events: seq<Stamped>): Catalog {
    if events == [] then EMPTY else Applied(Folded(events[..|events| - 1]), events[|events| - 1])
  }

  /** The projection as it is kept, field by field. */
  class Projection {
    var projects: map<Id, string>
    var conversations: map<Id, Conversation>
    var settings: string
    var titles: Places
    var pins: Places
    var setups: Places
    var lifecycles: Places
    var updates: Places
    var settingsPlace: int

    constructor ()
      ensures State() == EMPTY
    {
      projects, conversations, settings := map[], map[], "";
      titles, pins, setups, lifecycles, updates, settingsPlace := map[], map[], map[], map[], map[], 0;
    }

    function State(): Catalog
      reads this
    {
      Catalog(projects, conversations, settings, titles, pins, setups, lifecycles, updates, settingsPlace)
    }

    /** Raises the highest place a field was written at to `place`; whether `place` is the highest now. */
    static method Latest(places: Places, id: Id, place: int) returns (noted: Places, latest: bool)
      ensures noted == Noted(places, id, place) && latest == IsLatest(places, id, place)
    {
      var last := if id in places then places[id] else place;
      noted := places[id := last];
      if place < last {
        return noted, false;
      }
      return noted[id := place], true;
    }

    /** Applies an event at its place in the log, taken in at `at`. */
    method Apply(s: Stamped)
      modifies this
      ensures State() == Applied(old(State()), s)
    {
      match s.event
      case ProjectCreated(id, project) => projects := projects[id := project];
      case ProjectUpdated(id, project) =>
        if id in projects {
          var noted, latest := Latest(updates, id, s.place);
          updates := noted;
          if latest {
            projects := projects[id := project];
          }
        }
      case ProjectRemoved(id) => projects := projects - {id};
      case ConversationCreated(id, conversation) => conversations := conversations[id := conversation];
      case ConversationDeleted(id) => conversations := conversations - {id};
      case SettingsChanged(new_) =>
        if s.place >= settingsPlace {
          settings, settingsPlace := new_, s.place;
        }
      case Elsewhere =>
      case _ =>
        if s.event.id in conversations {
          Change(s);
        }
    }

    method Change(s: Stamped)
      requires ChangesConversation(s.event) && s.event.id in conversations
      modifies this
      ensures State() == Changed(old(State()), s, old(conversations[s.event.id]))
    {
      var id := s.event.id;
      var known := conversations[id];
      match s.event {
      case ConversationRenamed(_, title) =>
        var noted, latest := Latest(titles, id, s.place);
        titles := noted;
        known := known.(updated := Max(known.updated, s.at));
        if latest {
          known := known.(title := title);
        }
      case ConversationPinned(_, pinned) =>
        var noted, latest := Latest(pins, id, s.place);
        pins := noted;
        if latest {
          known := known.(pinned := pinned);
        }
      case ConversationSetUp(_, setup) =>
        var noted, latest := Latest(setups, id, s.place);
        setups := noted;
        if latest {
          known := known.(setup := Some(setup));
        }
      case LifecycleChanged(_, lifecycle) =>
        var noted, latest := Latest(lifecycles, id, s.place);
        lifecycles := noted;
        if latest {
          known := known.(lifecycle := lifecycle, updated := Max(known.updated, s.at));
        }
      case ConversationFallback(_, fallback) => known := known.(fallback := fallback);
      case ConversationWaiting(_, wait) => known := known.(quotaWait := wait);
      case MessageAppended(_, created) => known := known.(updated := Max(known.updated, created));
      }
      conversations := conversations[id := known];
    }
  }

  // What a fold comes to, whatever the order.

  datatype Field = Title | Pin | Setup | Life | Project

  datatype Value = Text(text: string) | Time(time: Option<int>) | Maybe(setup: Option<string>) | State(lifecycle: Lifecycle)

  predicate Mentions(e: Event, id: Id, project: bool) {
    match e
    case SettingsChanged(_) => false
    case Elsewhere => false
    case ProjectCreated(of, _) => project && of == id
    case ProjectUpdated(of, _) => project && of == id
    case ProjectRemoved(of) => project && of == id
    case _ => !project && e.id == id
  }

  predicate Creates(e: Event, id: Id, project: bool) {
    if project then e.ProjectCreated? && e.id == id else e.ConversationCreated? && e.id == id
  }

  predicate Removes(e: Event, id: Id, project: bool) {
    if project then e.ProjectRemoved? && e.id == id else e.ConversationDeleted? && e.id == id
  }

  /** The event sets the field. */
  predicate Sets(e: Event, field: Field, id: Id) {
    match field
    case Title => e.ConversationRenamed? && e.id == id
    case Pin => e.ConversationPinned? && e.id == id
    case Setup => e.ConversationSetUp? && e.id == id
    case Life => e.LifecycleChanged? && e.id == id
    case Project => e.ProjectUpdated? && e.id == id
  }

  function Written(e: Event, field: Field): Value {
    match e
    case ConversationRenamed(_, title) => Text(title)
    case ConversationPinned(_, pinned) => Time(pinned)
    case ConversationSetUp(_, setup) => Maybe(Some(setup))
    case LifecycleChanged(_, lifecycle) => Value.State(lifecycle)
    case ProjectUpdated(_, project) => Text(project)
    case ProjectCreated(_, project) => Text(project)
    case ConversationCreated(_, c) => Of(c, field)
    case _ => Text("")
  }

  function Of(c: Conversation, field: Field): Value {
    match field
    case Title => Text(c.title)
    case Pin => Time(c.pinned)
    case Setup => Maybe(c.setup)
    case Life => Value.State(c.lifecycle)
    case Project => Text("")
  }

  predicate Has(c: Catalog, id: Id, project: bool) {
    if project then id in c.projects else id in c.conversations
  }

  function Get(c: Catalog, field: Field, id: Id): Value
    requires Has(c, id, field.Project?)
  {
    if field.Project? then Text(c.projects[id]) else Of(c.conversations[id], field)
  }

  function PlacesOf(c: Catalog, field: Field): Places {
    match field
    case Title => c.titles
    case Pin => c.pins
    case Setup => c.setups
    case Life => c.lifecycles
    case Project => c.updates
  }

  /** Each event once, and an id's creation before anything else about it. */
  ghost predicate CreationsFirst(events: seq<Stamped>) {
    && (forall i, j :: 0 <= i < j < |events| ==> events[i].place != events[j].place)
    && (forall i :: 0 <= i < |events| ==> events[i].place > 0)
    && forall i, j, id, project :: 0 <= i < j < |events| && Creates(events[j].event, id, project) ==>
         !Mentions(events[i].event, id, project)
  }

  /** The event with the highest place that sets the field. */
  ghost predicate Highest(events: seq<Stamped>, field: Field, id: Id, e: Stamped) {
    && e in events && Sets(e.event, field, id)
    && forall other :: other in events && Sets(other.event, field, id) ==> other.place <= e.place
  }

  ghost predicate Present(events: seq<Stamped>, id: Id, project: bool) {
    && (exists e :: e in events && Creates(e.event, id, project))
    && forall e :: e in events ==> !Removes(e.event, id, project)
  }

  /** The field is the one its highest event set, or the one it was created with. */
  ghost predicate IsHighest(events: seq<Stamped>, c: Catalog, field: Field, id: Id)
    requires Has(c, id, field.Project?)
  {
    if id in PlacesOf(c, field) then
      exists e :: Highest(events, field, id, e) && e.place == PlacesOf(c, field)[id] && Get(c, field, id) == Written(e.event, field)
    else
      && (forall e :: e in events ==> !Sets(e.event, field, id))
      && exists e :: e in events && Creates(e.event, id, field.Project?) && Get(c, field, id) == Written(e.event, field)
  }

  // One event.

  predicate SameField(c: Catalog, after: Catalog, field: Field, id: Id) {
    && Has(after, id, field.Project?) == Has(c, id, field.Project?)
    && (Has(c, id, field.Project?) ==> Get(after, field, id) == Get(c, field, id))
    && (id in PlacesOf(after, field) <==> id in PlacesOf(c, field))
    && (id in PlacesOf(c, field) ==> PlacesOf(after, field)[id] == PlacesOf(c, field)[id])
  }

  /** A conversation is given another value that has the field as it was. */
  lemma UpdatedElsewhere(c: Catalog, after: Catalog, of: Id, conversation: Conversation, field: Field, id: Id)
    requires of in c.conversations && after.conversations == c.conversations[of := conversation] && after.projects == c.projects
    requires of == id ==> Of(conversation, field) == Of(c.conversations[of], field)
    requires id in PlacesOf(after, field) <==> id in PlacesOf(c, field)
    requires id in PlacesOf(c, field) ==> PlacesOf(after, field)[id] == PlacesOf(c, field)[id]
    ensures SameField(c, after, field, id)
  {
  }

  lemma LeavesUpdated(c: Catalog, s: Stamped, known: Conversation, field: Field)
    requires ChangesConversation(s.event) && !Sets(s.event, field, s.event.id)
    ensures Of(Updated(c, s, known), field) == Of(known, field)
  {
  }

  lemma LeavesPlaces(c: Catalog, s: Stamped, known: Conversation, field: Field, id: Id)
    requires ChangesConversation(s.event) && !Sets(s.event, field, id)
    ensures var after := Changed(c, s, known);
      && (id in PlacesOf(after, field) <==> id in PlacesOf(c, field))
      && (id in PlacesOf(c, field) ==> PlacesOf(after, field)[id] == PlacesOf(c, field)[id])
  {
    hide Updated, Noted, IsLatest;
    NotedElsewhere(PlacesOf(c, field), s.event.id, id, s.place);
  }

  lemma NotedElsewhere(places: Places, of: Id, id: Id, place: int)
    ensures of != id ==> (id in Noted(places, of, place) <==> id in places)
    ensures of != id && id in places ==> Noted(places, of, place)[id] == places[id]
  {
  }

  lemma LeavesChanged(c: Catalog, s: Stamped, field: Field, id: Id)
    requires !Sets(s.event, field, id) && ChangesConversation(s.event) && s.event.id in c.conversations
    ensures SameField(c, Changed(c, s, c.conversations[s.event.id]), field, id)
  {
    hide Noted, IsLatest, SameField, Updated, Of, Sets;
    var of := s.event.id;
    if of == id {
      LeavesUpdated(c, s, c.conversations[of], field);
    }
    LeavesPlaces(c, s, c.conversations[of], field, id);
    UpdatedElsewhere(c, Changed(c, s, c.conversations[of]), of, Updated(c, s, c.conversations[of]), field, id);
  }

  /** An event that does not set a field, nor create or remove its owner, leaves it alone. */
  lemma LeavesField(c: Catalog, s: Stamped, field: Field, id: Id)
    requires !Sets(s.event, field, id) && !Creates(s.event, id, field.Project?) && !Removes(s.event, id, field.Project?)
    ensures SameField(c, Applied(c, s), field, id)
  {
    hide SameField, Changed;
    if ChangesConversation(s.event) && s.event.id in c.conversations {
      LeavesChanged(c, s, field, id);
    } else {
      LeavesOther(c, s, field, id);
    }
  }

  lemma LeavesOther(c: Catalog, s: Stamped, field: Field, id: Id)
    requires !Sets(s.event, field, id) && !Creates(s.event, id, field.Project?) && !Removes(s.event, id, field.Project?)
    requires ChangesConversation(s.event) ==> s.event.id !in c.conversations
    ensures SameField(c, Applied(c, s), field, id)
  {
    hide Changed, Noted, IsLatest, SameField;
    match s.event {
      case ProjectUpdated(of, _) => LeavesUpdate(c, s, field, id);
      case ConversationCreated(of, conversation) => ConversationElsewhere(c, Applied(c, s), of, field, id);
      case ConversationDeleted(of) => ConversationElsewhere(c, Applied(c, s), of, field, id);
      case _ => LeavesProjects(c, s, field, id);
    }
  }

  lemma LeavesUpdate(c: Catalog, s: Stamped, field: Field, id: Id)
    requires !Sets(s.event, field, id) && s.event.ProjectUpdated?
    ensures SameField(c, Applied(c, s), field, id)
  {
    hide Changed, Noted, IsLatest;
    NotedElsewhere(c.updates, s.event.id, id, s.place);
  }

  lemma ConversationElsewhere(c: Catalog, after: Catalog, of: Id, field: Field, id: Id)
    requires after == c.(conversations := after.conversations) && after.conversations - {of} == c.conversations - {of}
    requires of == id ==> field.Project?
    ensures SameField(c, after, field, id)
  {
    if of != id {
      assert id in after.conversations <==> id in after.conversations - {of};
      assert id in c.conversations <==> id in c.conversations - {of};
      assert id in c.conversations ==> (c.conversations - {of})[id] == (after.conversations - {of})[id];
    }
  }

  lemma LeavesProjects(c: Catalog, s: Stamped, field: Field, id: Id)
    requires !Sets(s.event, field, id) && !Creates(s.event, id, field.Project?) && !Removes(s.event, id, field.Project?)
    requires s.event.ProjectCreated? || s.event.ProjectRemoved? || s.event.SettingsChanged? || s.event.Elsewhere?
      || (ChangesConversation(s.event) && s.event.id !in c.conversations)
    ensures SameField(c, Applied(c, s), field, id)
  {
    hide Changed, Noted, IsLatest;
  }

  lemma SetsField(c: Catalog, s: Stamped, field: Field, id: Id)
    requires Sets(s.event, field, id)
    ensures Has(Applied(c, s), id, field.Project?) == Has(c, id, field.Project?)
    ensures !Has(c, id, field.Project?) ==> Applied(c, s) == c
    ensures Has(c, id, field.Project?) ==>
      && PlacesOf(Applied(c, s), field) == Noted(PlacesOf(c, field), id, s.place)
      && Get(Applied(c, s), field, id) == if IsLatest(PlacesOf(c, field), id, s.place) then Written(s.event, field) else Get(c, field, id)
  {
  }

  lemma CreatesOwner(c: Catalog, s: Stamped, field: Field, id: Id)
    requires Creates(s.event, id, field.Project?)
    ensures Has(Applied(c, s), id, field.Project?) && Get(Applied(c, s), field, id) == Written(s.event, field)
    ensures PlacesOf(Applied(c, s), field) == PlacesOf(c, field)
  {
  }

  lemma RemovesOwner(c: Catalog, s: Stamped, field: Field, id: Id)
    requires Removes(s.event, id, field.Project?)
    ensures !Has(Applied(c, s), id, field.Project?) && PlacesOf(Applied(c, s), field) == PlacesOf(c, field)
  {
  }

  // Any order.

  /** What holds of a field after any events: who is there, and who set it. */
  ghost predicate Settled(events: seq<Stamped>, c: Catalog, field: Field, id: Id) {
    var project := field.Project?;
    && (Has(c, id, project) <==> Present(events, id, project))
    && (Has(c, id, project) ==> IsHighest(events, c, field, id))
    && (id in PlacesOf(c, field) ==> exists e :: e in events && Mentions(e.event, id, project))
  }

  lemma FirstsBefore(before: seq<Stamped>, s: Stamped)
    requires CreationsFirst(before + [s])
    ensures CreationsFirst(before)
    ensures forall e :: e in before ==> e.place != s.place
    ensures forall id, project :: Creates(s.event, id, project) ==> forall e :: e in before ==> !Mentions(e.event, id, project)
  {
    var all := before + [s];
    forall i | 0 <= i < |before| ensures all[i] == before[i] {
    }
    assert all[|before|] == s;
  }

  lemma Settles(before: seq<Stamped>, s: Stamped, c: Catalog, field: Field, id: Id)
    requires CreationsFirst(before + [s]) && Settled(before, c, field, id)
    ensures Settled(before + [s], Applied(c, s), field, id)
  {
    hide CreationsFirst, Applied, Settled, SameField;
    FirstsBefore(before, s);
    if Creates(s.event, id, field.Project?) {
      SettlesCreated(before, s, c, field, id);
    } else if Removes(s.event, id, field.Project?) {
      SettlesRemoved(before, s, c, field, id);
    } else if Sets(s.event, field, id) {
      SettlesSet(before, s, c, field, id);
    } else {
      LeavesField(c, s, field, id);
      SettlesLeft(before, s, c, Applied(c, s), field, id);
    }
  }

  lemma SettlesCreated(before: seq<Stamped>, s: Stamped, c: Catalog, field: Field, id: Id)
    requires Settled(before, c, field, id) && Creates(s.event, id, field.Project?)
    requires forall e :: e in before ==> !Mentions(e.event, id, field.Project?)
    ensures Settled(before + [s], Applied(c, s), field, id)
  {
    CreatesOwner(c, s, field, id);
    hide Applied;
    var all := before + [s];
    assert forall e :: e in all <==> e in before || e == s;
    assert s in all;
    forall e | e in all ensures !Sets(e.event, field, id) && !Removes(e.event, id, field.Project?) {
      assert e == s || !Mentions(e.event, id, field.Project?);
    }
  }

  lemma SettlesRemoved(before: seq<Stamped>, s: Stamped, c: Catalog, field: Field, id: Id)
    requires Settled(before, c, field, id) && Removes(s.event, id, field.Project?)
    ensures Settled(before + [s], Applied(c, s), field, id)
  {
    RemovesOwner(c, s, field, id);
    hide Applied, IsHighest;
    assert s in before + [s] && Mentions(s.event, id, field.Project?);
  }

  lemma PresentStill(before: seq<Stamped>, s: Stamped, id: Id, project: bool)
    requires !Creates(s.event, id, project) && !Removes(s.event, id, project)
    ensures Present(before + [s], id, project) == Present(before, id, project)
  {
    assert forall e :: e in before + [s] <==> e in before || e == s;
    if Present(before, id, project) {
      var e :| e in before && Creates(e.event, id, project);
      assert e in before + [s];
    }
  }

  lemma SettlesSet(before: seq<Stamped>, s: Stamped, c: Catalog, field: Field, id: Id)
    requires Settled(before, c, field, id) && Sets(s.event, field, id) && forall e :: e in before ==> e.place != s.place
    ensures Settled(before + [s], Applied(c, s), field, id)
  {
    var all := before + [s];
    SetsField(c, s, field, id);
    PresentStill(before, s, id, field.Project?);
    hide Applied, Present, IsHighest;
    assert s in all && Mentions(s.event, id, field.Project?);
    if Has(c, id, field.Project?) {
      SetIsHighest(before, s, c, Applied(c, s), field, id);
    } else if id in PlacesOf(c, field) {
      var e :| e in before && Mentions(e.event, id, field.Project?);
      assert e in all;
    }
  }

  lemma SetIsHighest(before: seq<Stamped>, s: Stamped, c: Catalog, after: Catalog, field: Field, id: Id)
    requires Sets(s.event, field, id) && forall e :: e in before ==> e.place != s.place
    requires Has(c, id, field.Project?) && Has(after, id, field.Project?) && IsHighest(before, c, field, id)
    requires PlacesOf(after, field) == Noted(PlacesOf(c, field), id, s.place)
    requires Get(after, field, id) == if IsLatest(PlacesOf(c, field), id, s.place) then Written(s.event, field) else Get(c, field, id)
    ensures IsHighest(before + [s], after, field, id)
  {
    hide Has, Get, Written, PlacesOf, Sets;
    var all := before + [s];
    assert forall e :: e in all <==> e in before || e == s;
    if IsLatest(PlacesOf(c, field), id, s.place) {
      assert Highest(all, field, id, s);
    } else {
      var e :| Highest(before, field, id, e) && e.place == PlacesOf(c, field)[id] && Get(c, field, id) == Written(e.event, field);
      assert Highest(all, field, id, e);
    }
  }

  lemma SettlesLeft(before: seq<Stamped>, s: Stamped, c: Catalog, after: Catalog, field: Field, id: Id)
    requires Settled(before, c, field, id)
    requires !Sets(s.event, field, id) && !Creates(s.event, id, field.Project?) && !Removes(s.event, id, field.Project?)
    requires SameField(c, after, field, id)
    ensures Settled(before + [s], after, field, id)
  {
    var all := before + [s];
    assert forall e :: e in all <==> e in before || e == s;
    PresentStill(before, s, id, field.Project?);
    hide Present;
    if id in PlacesOf(c, field) {
      var m :| m in before && Mentions(m.event, id, field.Project?);
      assert m in all;
      if Has(c, id, field.Project?) {
        var e :| Highest(before, field, id, e) && e.place == PlacesOf(c, field)[id] && Get(c, field, id) == Written(e.event, field);
        assert Highest(all, field, id, e);
      }
    } else if Has(c, id, field.Project?) {
      var e :| e in before && Creates(e.event, id, field.Project?) && Get(c, field, id) == Written(e.event, field);
      assert e in all;
    }
  }

  /** Whatever order events are applied in, creations first, each field is what its highest event
      set it to, or what it was created with. */
  lemma {:induction false} HighestWins(events: seq<Stamped>, field: Field, id: Id)
    requires CreationsFirst(events)
    ensures Settled(events, Folded(events), field, id)
  {
    hide Settled, CreationsFirst, Applied;
    if events == [] {
      NothingSettled(field, id);
    } else {
      var before, s := events[..|events| - 1], events[|events| - 1];
      assert before + [s] == events;
      FirstsBefore(before, s);
      HighestWins(before, field, id);
      Settles(before, s, Folded(before), field, id);
    }
  }

  lemma NothingSettled(field: Field, id: Id)
    ensures Settled([], EMPTY, field, id)
  {
  }

  // Settings and last activity.

  ghost predicate HighestSettings(events: seq<Stamped>, e: Stamped) {
    && e in events && e.event.SettingsChanged?
    && forall other :: other in events && other.event.SettingsChanged? ==> other.place <= e.place
  }

  /** The settings are those of the highest event that changed them. */
  ghost predicate SettingsSettled(events: seq<Stamped>, c: Catalog) {
    if c.settingsPlace == 0 then c.settings == EMPTY.settings && forall e :: e in events ==> !e.event.SettingsChanged?
    else exists e :: HighestSettings(events, e) && c.settingsPlace == e.place && c.settings == e.event.settings
  }

  lemma {:induction false} HighestSettingsWin(events: seq<Stamped>)
    requires CreationsFirst(events)
    ensures SettingsSettled(events, Folded(events))
  {
    if events != [] {
      var before, s := events[..|events| - 1], events[|events| - 1];
      assert before + [s] == events;
      FirstsBefore(before, s);
      HighestSettingsWin(before);
      assert s.place > 0;
      hide CreationsFirst;
      SettlesSettings(before, s, Folded(before));
    }
  }

  lemma SettlesSettings(before: seq<Stamped>, s: Stamped, c: Catalog)
    requires SettingsSettled(before, c) && s.place > 0
    ensures SettingsSettled(before + [s], Applied(c, s))
  {
    var all := before + [s];
    assert forall e :: e in all <==> e in before || e == s;
    SettingsKept(c, s);
    hide Applied;
    if s.event.SettingsChanged? && c.settingsPlace <= s.place {
      assert HighestSettings(all, s);
    } else if c.settingsPlace != 0 {
      var e :| HighestSettings(before, e) && c.settingsPlace == e.place && c.settings == e.event.settings;
      assert HighestSettings(all, e);
    }
  }

  lemma SettingsKept(c: Catalog, s: Stamped)
    ensures var after := Applied(c, s);
      if s.event.SettingsChanged? && c.settingsPlace <= s.place then
        after.settings == s.event.settings && after.settingsPlace == s.place
      else after.settings == c.settings && after.settingsPlace == c.settingsPlace
  {
    hide IsLatest, Noted, ProjectsAfter, ConversationsAfter, Updated;
  }

  /** When an event last touched a conversation, if it did. */
  function Touch(s: Stamped, id: Id): Option<int> {
    match s.event
    case ConversationCreated(of, conversation) => if of == id then Some(conversation.updated) else None
    case ConversationRenamed(of, _) => if of == id then Some(s.at) else None
    case LifecycleChanged(of, _) => if of == id then Some(s.at) else None
    case MessageAppended(of, created) => if of == id then Some(created) else None
    case _ => None
  }

  /** The time is the latest of the events that touched the conversation. */
  ghost predicate IsLastTouch(events: seq<Stamped>, id: Id, time: int) {
    && (exists e :: e in events && Touch(e, id) == Some(time))
    && forall e :: e in events && Touch(e, id).Some? ==> Touch(e, id).value <= time
  }

  /** Events taken in later have later times. */
  ghost predicate TimesGrow(events: seq<Stamped>) {
    forall a, b :: a in events && b in events && a.place < b.place ==> a.at <= b.at
  }

  /** When times grow, a conversation's last activity is the latest of all events about it. */
  lemma {:induction false} LastActivity(events: seq<Stamped>, id: Id)
    requires CreationsFirst(events) && TimesGrow(events)
    ensures id in Folded(events).conversations ==> IsLastTouch(events, id, Folded(events).conversations[id].updated)
  {
    hide CreationsFirst, Applied, IsLastTouch;
    if events != [] {
      var before, s := events[..|events| - 1], events[|events| - 1];
      assert before + [s] == events;
      FirstsBefore(before, s);
      LastActivity(before, id);
      HighestWins(before, Life, id);
      TouchesOne(before, s, Folded(before), id);
    }
  }

  lemma UpdatedTime(c: Catalog, s: Stamped, id: Id)
    ensures var after := Applied(c, s);
      id in after.conversations ==>
        (if s.event.ConversationCreated? && s.event.id == id then after.conversations[id].updated == s.event.conversation.updated
         else id in c.conversations && after.conversations[id].updated == TouchedTime(c, c.conversations[id], s, id))
  {
    hide IsLatest, Noted, Updated, Max, AppliedElsewhere, TouchedTime;
    if !ChangesConversation(s.event) {
      ElsewhereTime(c, s, id);
    } else if s.event.id in c.conversations {
      UpdatedTouched(c, s, c.conversations[s.event.id]);
      NotTouched(c, s, id);
    } else {
      NotTouched(c, s, id);
    }
  }

  lemma NotTouched(c: Catalog, s: Stamped, id: Id)
    requires ChangesConversation(s.event)
    ensures s.event.id != id && id in c.conversations ==> TouchedTime(c, c.conversations[id], s, id) == c.conversations[id].updated
  {
  }

  lemma ElsewhereTime(c: Catalog, s: Stamped, id: Id)
    requires !ChangesConversation(s.event)
    ensures var after := AppliedElsewhere(c, s);
      id in after.conversations ==>
        (if s.event.ConversationCreated? && s.event.id == id then after.conversations[id].updated == s.event.conversation.updated
         else id in c.conversations && after.conversations[id].updated == TouchedTime(c, c.conversations[id], s, id))
  {
    hide IsLatest, Noted, Max, ProjectsAfter, ChangesSettings;
  }

  function TouchedTime(c: Catalog, known: Conversation, s: Stamped, id: Id): int {
    if Touch(s, id).None? || (s.event.LifecycleChanged? && !IsLatest(c.lifecycles, id, s.place)) then known.updated
    else Max(known.updated, Touch(s, id).value)
  }

  lemma UpdatedTouched(c: Catalog, s: Stamped, known: Conversation)
    requires ChangesConversation(s.event)
    ensures Updated(c, s, known).updated == TouchedTime(c, known, s, s.event.id)
  {
  }

  lemma TouchesOne(before: seq<Stamped>, s: Stamped, c: Catalog, id: Id)
    requires CreationsFirst(before + [s]) && TimesGrow(before + [s])
    requires id in c.conversations ==> IsLastTouch(before, id, c.conversations[id].updated)
    requires Settled(before, c, Life, id)
    ensures id in Applied(c, s).conversations ==> IsLastTouch(before + [s], id, Applied(c, s).conversations[id].updated)
  {
    FirstsBefore(before, s);
    UpdatedTime(c, s, id);
    hide CreationsFirst, Applied, Present, IsLastTouch, Settled, TouchedTime, Touch;
    if s.event.ConversationCreated? && s.event.id == id {
      TouchesFirst(before, s, id);
    } else if id in c.conversations {
      TouchesNext(before, s, c, id);
    }
  }

  lemma TouchesFirst(before: seq<Stamped>, s: Stamped, id: Id)
    requires s.event.ConversationCreated? && s.event.id == id
    requires forall id, project :: Creates(s.event, id, project) ==> forall e :: e in before ==> !Mentions(e.event, id, project)
    ensures IsLastTouch(before + [s], id, s.event.conversation.updated)
  {
    var all := before + [s];
    assert forall e :: e in all <==> e in before || e == s;
    assert s in all && Creates(s.event, id, false);
    forall e | e in before ensures Touch(e, id).None? {
      assert !Mentions(e.event, id, false);
    }
  }

  lemma TouchesNext(before: seq<Stamped>, s: Stamped, c: Catalog, id: Id)
    requires TimesGrow(before + [s]) && id in c.conversations && IsLastTouch(before, id, c.conversations[id].updated)
    requires Settled(before, c, Life, id)
    ensures IsLastTouch(before + [s], id, TouchedTime(c, c.conversations[id], s, id)) || (s.event.ConversationCreated? && s.event.id == id)
  {
    hide Present;
    var all := before + [s];
    assert forall e :: e in all <==> e in before || e == s;
    assert s in all;
    var last :| last in before && Touch(last, id) == Some(c.conversations[id].updated);
    assert last in all;
    if s.event.LifecycleChanged? && s.event.id == id && !IsLatest(c.lifecycles, id, s.place) {
      var e :| Highest(before, Life, id, e) && e.place == c.lifecycles[id];
      assert e in all && s.at <= e.at == Touch(e, id).value;
    }
  }

  // The same events in another order.

  ghost predicate SameEvents(a: seq<Stamped>, b: seq<Stamped>) {
    forall e :: e in a <==> e in b
  }

  lemma PlacesDiffer(events: seq<Stamped>, a: Stamped, b: Stamped)
    requires CreationsFirst(events) && a in events && b in events && a.place == b.place
    ensures a == b
  {
    var i :| 0 <= i < |events| && events[i] == a;
    var j :| 0 <= j < |events| && events[j] == b;
  }

  lemma CreatedOnce(events: seq<Stamped>, a: Stamped, b: Stamped, id: Id, project: bool)
    requires CreationsFirst(events) && a in events && b in events
    requires Creates(a.event, id, project) && Creates(b.event, id, project)
    ensures a == b
  {
    var i :| 0 <= i < |events| && events[i] == a;
    var j :| 0 <= j < |events| && events[j] == b;
    assert Mentions(a.event, id, project) && Mentions(b.event, id, project);
  }

  /** The same events in any two orders, creations first, give the same projects, conversations,
      titles, pins, setups, lifecycles and settings. */
  lemma OrderIrrelevant(a: seq<Stamped>, b: seq<Stamped>, field: Field, id: Id)
    requires CreationsFirst(a) && CreationsFirst(b) && SameEvents(a, b)
    ensures Has(Folded(a), id, field.Project?) == Has(Folded(b), id, field.Project?)
    ensures Has(Folded(a), id, field.Project?) ==> Get(Folded(a), field, id) == Get(Folded(b), field, id)
    ensures Folded(a).settings == Folded(b).settings
  {
    HighestWins(a, field, id);
    HighestWins(b, field, id);
    HighestSettingsWin(a);
    HighestSettingsWin(b);
    hide Folded;
    SameSettings(a, b, Folded(a), Folded(b));
    hide SettingsSettled;
    SameValue(a, b, Folded(a), Folded(b), field, id);
  }

  lemma SameSettings(a: seq<Stamped>, b: seq<Stamped>, c: Catalog, d: Catalog)
    requires CreationsFirst(a) && SameEvents(a, b) && SettingsSettled(a, c) && SettingsSettled(b, d)
    ensures c.settings == d.settings
  {
    if c.settingsPlace != 0 && d.settingsPlace != 0 {
      var x :| HighestSettings(a, x) && c.settingsPlace == x.place && c.settings == x.event.settings;
      var y :| HighestSettings(b, y) && d.settingsPlace == y.place && d.settings == y.event.settings;
      PlacesDiffer(a, x, y);
    }
  }

  lemma SameValue(a: seq<Stamped>, b: seq<Stamped>, c: Catalog, d: Catalog, field: Field, id: Id)
    requires CreationsFirst(a) && CreationsFirst(b) && SameEvents(a, b) && Settled(a, c, field, id) && Settled(b, d, field, id)
    ensures Has(c, id, field.Project?) == Has(d, id, field.Project?)
    ensures Has(c, id, field.Project?) ==> Get(c, field, id) == Get(d, field, id)
  {
    var project := field.Project?;
    assert Present(a, id, project) == Present(b, id, project);
    if Has(c, id, project) {
      if id in PlacesOf(c, field) && id in PlacesOf(d, field) {
        var x :| Highest(a, field, id, x) && Get(c, field, id) == Written(x.event, field);
        var y :| Highest(b, field, id, y) && Get(d, field, id) == Written(y.event, field);
        PlacesDiffer(a, x, y);
      } else if id !in PlacesOf(c, field) && id !in PlacesOf(d, field) {
        var x :| x in a && Creates(x.event, id, project) && Get(c, field, id) == Written(x.event, field);
        var y :| y in b && Creates(y.event, id, project) && Get(d, field, id) == Written(y.event, field);
        CreatedOnce(a, x, y, id, project);
      }
    }
  }

  /** And, when times grow, the same last activity. */
  lemma OrderIrrelevantActivity(a: seq<Stamped>, b: seq<Stamped>, id: Id)
    requires CreationsFirst(a) && CreationsFirst(b) && SameEvents(a, b) && TimesGrow(a)
    ensures id in Folded(a).conversations && id in Folded(b).conversations ==>
      Folded(a).conversations[id].updated == Folded(b).conversations[id].updated
  {
    assert TimesGrow(b);
    LastActivity(a, id);
    LastActivity(b, id);
  }
}
