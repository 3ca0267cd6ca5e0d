/** How the create and update handlers turn a request into an event row. */
module EventRules {
  import opened Wrappers
  import opened ApiUtils
  import opened Schema
  import opened Validation

  /** `value || null` for an optional string: an empty string is stored as null. */
  function OrNull(s: Option<string>): (r: Option<string>)
    ensures r.None? <==> !Truthy(s)
    ensures r.Some? ==> r == s
  {
    if Truthy(s) then s else None
  }

  /** `value || null` for an optional number: zero is stored as null. */
  function OrNullNumber(m: Option<int>): (r: Option<int>)
    ensures r.None? <==> m.None? || m.value == 0
    ensures r.Some? ==> r == m
  {
    if m.Some? && m.value != 0 then m else None
  }

  /** The row the create handler inserts, with the database's default timestamps. */
  function NewEvent(id: string, input: CreateEventInput, creator: string, now: int): (e: Event)
    ensures e.id == id && e.createdBy == creator && e.bannerUrl == None
    ensures e.title == input.title && e.date == input.date
    ensures e.description == OrNull(input.description) && e.location == OrNull(input.location)
    ensures e.maxAttendees == OrNullNumber(input.maxAttendees)
    ensures e.createdAt == now && e.updatedAt == now
  {
    Event(id, input.title, OrNull(input.description), input.date, OrNull(input.location),
          None, OrNullNumber(input.maxAttendees), creator, now, now)
  }

  /** A valid create request never stores a cap of zero or below. */
  lemma NewEventCapPositive(id: string, input: CreateEventInput, creator: string, now: int)
    requires ValidCreate(input)
    ensures var e := NewEvent(id, input, creator, now);
            e.maxAttendees.Some? ==> e.maxAttendees.value > 0
  {
  }

  /** The update handler's `set`: each supplied field overwrites the old one, the others
      stay, and `updatedAt` becomes `now`. An empty string is stored as it is. */
  function ApplyPatch(e: Event, p: UpdateEventInput, now: int): (u: Event)
    ensures u.id == e.id && u.createdBy == e.createdBy && u.createdAt == e.createdAt
    ensures u.bannerUrl == e.bannerUrl && u.updatedAt == now
    ensures u.title == (if p.title.Some? then p.title.value else e.title)
    ensures u.description == (if p.description.Some? then p.description else e.description)
    ensures u.date == (if p.date.Some? then p.date.value else e.date)
    ensures u.location == (if p.location.Some? then p.location else e.location)
    ensures u.maxAttendees == (if p.maxAttendees.Some? then p.maxAttendees else e.maxAttendees)
  {
    e.(title := p.title.GetOr(e.title),
       description := if p.description.Some? then p.description else e.description,
       date := p.date.GetOr(e.date),
       location := if p.location.Some? then p.location else e.location,
       maxAttendees := if p.maxAttendees.Some? then p.maxAttendees else e.maxAttendees,
       updatedAt := now)
  }

  /** An update that supplies nothing only moves `updatedAt`. */
  lemma EmptyPatchOnlyTouches(e: Event, now: int)
    ensures ApplyPatch(e, UpdateEventInput(None, None, None, None, None), now) == e.(updatedAt := now)
  {
  }

  /** The update handler never compares a new cap with the current attendee count, so an
      update can leave an event with more attendees than its cap. */
  lemma PatchCanBreakCapacity()
    ensures var e := Event("e", "Meetup", None, 10, None, None, Some(5), "owner", 0, 0);
            var att := map["a1" := Attendee("a1", "u1", "e", 0), "a2" := Attendee("a2", "u2", "e", 0)];
            var p := UpdateEventInput(None, None, None, None, Some(1));
            ValidUpdate(p) && WithinCapacity(att, e) && !WithinCapacity(att, ApplyPatch(e, p, 1))
  {
    var att := map["a1" := Attendee("a1", "u1", "e", 0), "a2" := Attendee("a2", "u2", "e", 0)];
    assert AttendeeIds(att, "e") == {"a1", "a2"};
  }

  // ------------------------------------------------ the body as written

  /** The JSON body as the update handler reads it back with `c.req.json()`: the schema
      passes unknown keys through, so besides the schema's fields the body can carry
      other column names, `createdBy` among them. */
  datatype RawUpdateBody = RawUpdateBody(fields: UpdateEventInput, createdBy: Option<string>)

  /** `set({ ...data, date, updatedAt })` as written: every key of the body that names a
      column is written, including `createdBy`. */
  function ApplyRawBody(e: Event, body: RawUpdateBody, now: int): (r: Event)
    ensures body.createdBy.Some? ==> r.createdBy == body.createdBy.value
    ensures body.createdBy.None? ==> r == ApplyPatch(e, body.fields, now)
    ensures r.(createdBy := e.createdBy) == ApplyPatch(e, body.fields, now)
  {
    ApplyPatch(e, body.fields, now).(createdBy := body.createdBy.GetOr(e.createdBy))
  }

  /** A body that passes the update schema can hand the event to another user when it is
      spread into the row; applying only the schema's fields keeps the creator. */
  lemma RawBodyReassignsCreator(e: Event, newOwner: string, now: int)
    requires newOwner != e.createdBy
    ensures var body := RawUpdateBody(UpdateEventInput(None, None, None, None, None), Some(newOwner));
            ValidUpdate(body.fields)
            && ApplyRawBody(e, body, now).createdBy == newOwner
            && ApplyPatch(e, body.fields, now).createdBy == e.createdBy
  {
  }
}
