/** The four tables of the database, their primary keys, the unique e-mail, the foreign
    keys and their `ON DELETE CASCADE` rules. Nullable columns are `Option`s; timestamps
    are integers. */
module Schema {
  import opened Wrappers

  datatype User = User(id: string, email: string, password: string, name: Option<string>,
                       createdAt: int)

  datatype Event = Event(id: string, title: string, description: Option<string>, date: int,
                         location: Option<string>, bannerUrl: Option<string>,
                         maxAttendees: Option<int>, createdBy: string,
                         createdAt: int, updatedAt: int)

  datatype Attendee = Attendee(id: string, userId: string, eventId: string, joinedAt: int)

  datatype Session = Session(id: string, userId: string, expiresAt: int)

  /** Each table maps a primary key to its row. */
  datatype Tables = Tables(users: map<string, User>, events: map<string, Event>,
                           attendees: map<string, Attendee>, sessions: map<string, Session>)

  // ------------------------------------------------------ constraints

  predicate PrimaryKeys(t: Tables) {
    (forall k :: k in t.users ==> t.users[k].id == k)
    && (forall k :: k in t.events ==> t.events[k].id == k)
    && (forall k :: k in t.attendees ==> t.attendees[k].id == k)
    && (forall k :: k in t.sessions ==> t.sessions[k].id == k)
  }

  predicate EmailUnique(users: map<string, User>) {
    forall a, b :: a in users && b in users && users[a].email == users[b].email ==> a == b
  }

  /** Every foreign key names an existing row. */
  predicate References(t: Tables) {
    (forall k :: k in t.events ==> t.events[k].createdBy in t.users)
    && (forall k :: k in t.attendees ==> t.attendees[k].userId in t.users
                                         && t.attendees[k].eventId in t.events)
    && (forall k :: k in t.sessions ==> t.sessions[k].userId in t.users)
  }

  predicate Integrity(t: Tables) {
    PrimaryKeys(t) && EmailUnique(t.users) && References(t)
  }

  // ----------------------------------------------------- attendee queries

  predicate IsRecordOf(a: Attendee, userId: string, eventId: string) {
    a.userId == userId && a.eventId == eventId
  }

  /** Some attendee row links `userId` to `eventId`. */
  predicate HasRecord(att: map<string, Attendee>, userId: string, eventId: string) {
    exists k :: k in att && IsRecordOf(att[k], userId, eventId)
  }

  /** No two attendee rows share a (user, event) pair. The schema has no such constraint;
      the join handler's check is what maintains it. */
  predicate PairsUnique(att: map<string, Attendee>) {
    forall a, b ::
      (a in att && b in att && att[a].userId == att[b].userId && att[a].eventId == att[b].eventId)
      ==> a == b
  }

  /** The ids of the attendee rows of one event. */
  function AttendeeIds(att: map<string, Attendee>, eventId: string): (ids: set<string>)
    ensures forall k :: k in ids <==> k in att && att[k].eventId == eventId
  {
    set k | k in att && att[k].eventId == eventId
  }

  /** `count(*)` of the attendee rows of one event. */
  function Count(att: map<string, Attendee>, eventId: string): nat {
    |AttendeeIds(att, eventId)|
  }

  /** `if (event.maxAttendees)`: JavaScript truthiness of the column. Null and 0 mean no
      cap; every other number, a negative one included, is a cap. */
  predicate HasCap(e: Event): (capped: bool)
    ensures e.maxAttendees.None? ==> !capped
    ensures e.maxAttendees == Some(0) ==> !capped
    ensures e.maxAttendees.Some? && e.maxAttendees.value > 0 ==> capped
    ensures e.maxAttendees.Some? && e.maxAttendees.value < 0 ==> capped
  {
    e.maxAttendees.Some? && e.maxAttendees.value != 0
  }

  /** The event's attendee count does not exceed its cap. */
  predicate WithinCapacity(att: map<string, Attendee>, e: Event) {
    HasCap(e) ==> Count(att, e.id) <= e.maxAttendees.value
  }

  /** No event's creator is among its attendees. */
  predicate CreatorsNotAttending(events: map<string, Event>, att: map<string, Attendee>) {
    forall k :: k in att && att[k].eventId in events ==> events[att[k].eventId].createdBy != att[k].userId
  }

  /** The constraints the handlers keep: the schema's, unique (user, event) pairs, and no
      creator attending their own event. */
  predicate Consistent(t: Tables) {
    Integrity(t) && PairsUnique(t.attendees) && CreatorsNotAttending(t.events, t.attendees)
  }

  // --------------------------------------------------------- insertion

  /** Adding a row under a fresh key raises the count of its event by exactly one and
      leaves every other event's count alone. */
  lemma CountAfterInsert(att: map<string, Attendee>, id: string, a: Attendee, eventId: string)
    requires id !in att
    ensures a.eventId == eventId ==> Count(att[id := a], eventId) == Count(att, eventId) + 1
    ensures a.eventId != eventId ==> Count(att[id := a], eventId) == Count(att, eventId)
  {
    if a.eventId == eventId {
      assert AttendeeIds(att[id := a], eventId) == AttendeeIds(att, eventId) + {id};
    } else {
      assert AttendeeIds(att[id := a], eventId) == AttendeeIds(att, eventId);
    }
  }

  /** The attendee rows left after deleting those of (`userId`, `eventId`). */
  function RemovePair(att: map<string, Attendee>, userId: string, eventId: string)
    : (r: map<string, Attendee>)
    ensures forall k :: k in r <==> k in att && !IsRecordOf(att[k], userId, eventId)
    ensures forall k :: k in r ==> r[k] == att[k]
    ensures !HasRecord(r, userId, eventId)
  {
    map k | k in att && !IsRecordOf(att[k], userId, eventId) :: att[k]
  }

  /** With unique pairs, leaving lowers the event's count by exactly one; other events
      keep their counts. */
  lemma CountAfterRemovePair(att: map<string, Attendee>, userId: string, eventId: string)
    requires PairsUnique(att) && HasRecord(att, userId, eventId)
    ensures Count(RemovePair(att, userId, eventId), eventId) == Count(att, eventId) - 1
    ensures forall e :: e != eventId ==> AttendeeIds(RemovePair(att, userId, eventId), e) == AttendeeIds(att, e)
  {
    var k0 :| k0 in att && IsRecordOf(att[k0], userId, eventId);
    var r := RemovePair(att, userId, eventId);
    assert AttendeeIds(r, eventId) == AttendeeIds(att, eventId) - {k0};
  }

  // ------------------------------------------------- preserving the constraints

  /** A join that passed the handler's guards keeps every constraint. */
  lemma JoinKeepsConsistent(t: Tables, id: string, a: Attendee)
    requires Consistent(t) && id !in t.attendees && a.id == id
    requires a.userId in t.users && a.eventId in t.events
    requires t.events[a.eventId].createdBy != a.userId
    requires !HasRecord(t.attendees, a.userId, a.eventId)
    ensures Consistent(t.(attendees := t.attendees[id := a]))
  {
    var att := t.attendees[id := a];
    forall x, y | x in att && y in att && att[x].userId == att[y].userId && att[x].eventId == att[y].eventId
      ensures x == y
    {
      if x == id && y != id {
        assert IsRecordOf(t.attendees[y], a.userId, a.eventId);
      }
    }
  }

  /** A leave keeps every constraint. */
  lemma LeaveKeepsConsistent(t: Tables, userId: string, eventId: string)
    requires Consistent(t)
    ensures Consistent(t.(attendees := RemovePair(t.attendees, userId, eventId)))
  {
  }

  /** Inserting a new event under a fresh key, created by a stored user, keeps every
      constraint. */
  lemma CreateKeepsConsistent(t: Tables, e: Event)
    requires Consistent(t) && e.id !in t.events && e.createdBy in t.users
    ensures Consistent(t.(events := t.events[e.id := e]))
  {
  }

  /** Rewriting an event row that keeps its key and creator keeps every constraint. */
  lemma EditKeepsConsistent(t: Tables, e: Event)
    requires Consistent(t) && e.id in t.events && e.createdBy == t.events[e.id].createdBy
    ensures Consistent(t.(events := t.events[e.id := e]))
  {
  }

  /** An insert that the capacity guard let through keeps every event within its cap. */
  lemma InsertKeepsCapacity(att: map<string, Attendee>, id: string, a: Attendee, e: Event)
    requires id !in att && WithinCapacity(att, e)
    requires e.id == a.eventId && HasCap(e) ==> Count(att, e.id) < e.maxAttendees.value
    ensures WithinCapacity(att[id := a], e)
  {
    CountAfterInsert(att, id, a, e.id);
  }

  // ------------------------------------------------------------ cascades

  /** The attendee rows whose event or user satisfies neither filter. */
  function AttendeesWithout(att: map<string, Attendee>, eventIds: set<string>, userId: Option<string>)
    : (r: map<string, Attendee>)
    ensures forall k :: k in r <==> k in att && att[k].eventId !in eventIds
                                    && (userId.Some? ==> att[k].userId != userId.value)
    ensures forall k :: k in r ==> r[k] == att[k]
  {
    map k | k in att && att[k].eventId !in eventIds && (userId.Some? ==> att[k].userId != userId.value)
      :: att[k]
  }

  /** Deleting an event deletes every attendee row that references it. */
  function DeleteEvent(t: Tables, eventId: string): (d: Tables)
    ensures d.users == t.users && d.sessions == t.sessions
    ensures d.events == t.events - {eventId}
    ensures forall k :: k in d.attendees <==> k in t.attendees && t.attendees[k].eventId != eventId
    ensures forall k :: k in d.attendees ==> d.attendees[k] == t.attendees[k]
  {
    t.(events := t.events - {eventId},
       attendees := AttendeesWithout(t.attendees, {eventId}, None))
  }

  /** The events a user created. */
  function EventsOf(events: map<string, Event>, userId: string): (ids: set<string>)
    ensures forall k :: k in ids <==> k in events && events[k].createdBy == userId
  {
    set k | k in events && events[k].createdBy == userId
  }

  /** Deleting a user deletes their sessions, their events, the attendee rows of those
      events and their own attendee rows. */
  function DeleteUser(t: Tables, userId: string): (d: Tables)
    ensures d.users == t.users - {userId}
    ensures forall k :: k in d.events <==> k in t.events && t.events[k].createdBy != userId
    ensures forall k :: k in d.attendees <==>
              k in t.attendees && t.attendees[k].userId != userId
              && !(t.attendees[k].eventId in t.events && t.events[t.attendees[k].eventId].createdBy == userId)
    ensures forall k :: k in d.sessions <==> k in t.sessions && t.sessions[k].userId != userId
    ensures forall k :: k in d.events ==> d.events[k] == t.events[k]
    ensures forall k :: k in d.attendees ==> d.attendees[k] == t.attendees[k]
    ensures forall k :: k in d.sessions ==> d.sessions[k] == t.sessions[k]
  {
    var gone := EventsOf(t.events, userId);
    Tables(t.users - {userId},
           map k | k in t.events && k !in gone :: t.events[k],
           AttendeesWithout(t.attendees, gone, Some(userId)),
           map k | k in t.sessions && t.sessions[k].userId != userId :: t.sessions[k])
  }

  lemma DeleteEventKeepsConsistent(t: Tables, eventId: string)
    requires Consistent(t)
    ensures Consistent(DeleteEvent(t, eventId))
  {
  }

  /** After the cascade no attendee row names the deleted event, and every other event
      keeps all its rows. */
  lemma DeleteEventCascades(t: Tables, eventId: string)
    ensures var d := DeleteEvent(t, eventId);
            eventId !in d.events && Count(d.attendees, eventId) == 0
            && forall e :: e != eventId ==> AttendeeIds(d.attendees, e) == AttendeeIds(t.attendees, e)
  {
    var d := DeleteEvent(t, eventId);
    assert AttendeeIds(d.attendees, eventId) == {};
  }

  lemma DeleteUserKeepsIntegrity(t: Tables, userId: string)
    requires Integrity(t)
    ensures Integrity(DeleteUser(t, userId))
  {
    var d := DeleteUser(t, userId);
    forall k | k in d.attendees
      ensures d.attendees[k].userId in d.users && d.attendees[k].eventId in d.events
    {
      var a := t.attendees[k];
      assert a.eventId in t.events;
      assert t.events[a.eventId].createdBy != userId;
    }
  }

  /** After the cascade nothing refers to the deleted user. */
  lemma DeleteUserCascades(t: Tables, userId: string)
    requires Integrity(t)
    ensures var d := DeleteUser(t, userId);
            userId !in d.users
            && (forall k :: k in d.events ==> d.events[k].createdBy != userId)
            && (forall k :: k in d.attendees ==> d.attendees[k].userId != userId)
            && (forall k :: k in d.sessions ==> d.sessions[k].userId != userId)
  {
  }
}
