/** The in-memory database behind the route handlers, with one method per mutating
    handler and one per read handler. Every method checks its guards in the handler's
    order and writes only after all of them pass, except `UploadBannerAsWritten`, which,
    like the upload handler, deletes the old banner's object before checking the new file. */
module Store {
  import opened Wrappers
  import opened ApiUtils
  import opened Schema
  import opened Validation
  import R2
  import EventRules

  /** What the session middleware decided about the caller. */
  datatype Auth = NoSession | InvalidSession | Authenticated(userId: string)

  /** The attendee list's entries and the caller's joined events. */
  datatype Joined = Joined(event: Event, joinedAt: int)

  /** The data of a successful banner upload. */
  datatype Banner = Banner(event: Event, bannerUrl: string)

  /** A single event with its attendee count. */
  datatype EventWithCount = EventWithCount(event: Event, attendeeCount: nat)

  const MsgNoSession: string := "Unauthorized - No session found"
  const MsgInvalidSession: string := "Unauthorized - Invalid session"
  const MsgEventNotFound: string := "Event not found"
  const MsgCreatorJoin: string := "Event creator cannot join their own event"
  const MsgAlreadyJoined: string := "Already joined this event"
  const MsgFull: string := "Event is full"
  const MsgJoinFailed: string := "Failed to join event"
  const MsgJoined: string := "Successfully joined event"
  const MsgNotAttending: string := "Not attending this event"
  const MsgLeft: string := "Successfully left event"
  const MsgPastDate: string := "Event date must be in the future"
  const MsgCreateFailed: string := "Failed to create event"
  const MsgCreated: string := "Event created successfully"
  const MsgNotOwnerUpdate: string := "You are not authorized to update this event"
  const MsgUpdated: string := "Event updated successfully"
  const MsgNotOwnerDelete: string := "You are not authorized to delete this event"
  const MsgDeleted: string := "Event deleted successfully"
  const MsgNotOwnerUpload: string := "You are not authorized to upload banner for this event"
  const MsgNoFile: string := "No file provided"
  const MsgUploaded: string := "Banner uploaded successfully"
  const MsgNotOwnerBanner: string := "You are not authorized to delete banner for this event"
  const MsgNoBanner: string := "No banner to delete"
  const MsgBannerDeleteFailed: string := "Failed to delete banner"
  const MsgBannerDeleted: string := "Banner deleted successfully"

  /** The bucket folder that banners go to. */
  const BannerFolder: string := "events"

  /** The middleware's 401 for a request it does not let through. */
  function Unauthorized<T>(auth: Auth): (r: Reply<T>)
    requires !auth.Authenticated?
    ensures r.status == 401 && r.body.Failed?
    ensures r.body.error.message == if auth.NoSession? then MsgNoSession else MsgInvalidSession
  {
    if auth.NoSession? then Fail(MsgNoSession, 401) else Fail(MsgInvalidSession, 401)
  }

  /** The bucket key a stored banner URL points at, when the handlers would act on it:
      the URL is set, parses, and yields a non-empty key. */
  function BannerKey(e: Event): (k: Option<string>)
    ensures k.Some? <==> Truthy(e.bannerUrl) && Truthy(R2.ExtractR2Key(e.bannerUrl.value))
    ensures k.Some? ==> e.bannerUrl.Some? && R2.ExtractR2Key(e.bannerUrl.value) == k && k.value != ""
  {
    if Truthy(e.bannerUrl) && Truthy(R2.ExtractR2Key(e.bannerUrl.value))
    then R2.ExtractR2Key(e.bannerUrl.value) else None
  }

  /** The event's banner, if it has one the handlers can name, is stored in the bucket. */
  predicate BannerStored(e: Event, bucket: set<string>) {
    BannerKey(e).Some? ==> BannerKey(e).value in bucket
  }

  /** The bucket after deleting the old banner's object, unless that delete failed. */
  function WithoutOldBanner(bucket: set<string>, e: Event, deleteFails: bool): set<string> {
    if BannerKey(e).Some? && !deleteFails then bucket - {BannerKey(e).value} else bucket
  }

  /** Once the old banner's object is deleted, the event's URL names nothing in the bucket. */
  lemma OldBannerGone(e: Event, bucket: set<string>, deleteFails: bool)
    ensures BannerKey(e).Some? && !deleteFails ==> !BannerStored(e, WithoutOldBanner(bucket, e, deleteFails))
  {
  }

  /** A banner with a nanoid random part and a URL-safe extension can be found again from
      its URL. */
  lemma NewBannerStored(e: Event, file: R2.File, nano: string, bucket: set<string>)
    requires R2.PrepareUpload(file, BannerFolder, nano).Ok?
    requires R2.NanoId(nano) && R2.AllUrlSafe(Extension(file.name))
    ensures var s := R2.PrepareUpload(file, BannerFolder, nano).value;
            BannerStored(e.(bannerUrl := Some(s.url)), bucket + {s.key})
  {
    BannerFolderUrlSafe();
    StoredUnder(e, file, BannerFolder, nano, bucket);
  }

  lemma BannerFolderUrlSafe()
    ensures R2.AllUrlSafe(BannerFolder) && R2.DotsInsideNames(BannerFolder)
  {
    forall i | 0 <= i < |BannerFolder| ensures R2.UrlSafe(BannerFolder[i]) {
      assert R2.IsLetter(BannerFolder[i]);
    }
  }

  lemma StoredUnder(e: Event, file: R2.File, folder: string, nano: string, bucket: set<string>)
    requires R2.PrepareUpload(file, folder, nano).Ok?
    requires R2.AllUrlSafe(folder) && R2.DotsInsideNames(folder)
    requires R2.NanoId(nano) && R2.AllUrlSafe(Extension(file.name))
    ensures var s := R2.PrepareUpload(file, folder, nano).value;
            BannerStored(e.(bannerUrl := Some(s.url)), bucket + {s.key})
  {
    var s := R2.PrepareUpload(file, folder, nano).value;
    R2.UploadRoundTrip(file, folder, nano);
    var u := e.(bannerUrl := Some(s.url));
    assert |s.url| > 0 by { assert s.url == R2.PublicBase + s.key; }
    assert BannerKey(u) == Some(s.key);
  }

  /** The upload handler's guards, in its order: the session, the event, its owner, the
      file. None when all of them pass. */
  function UploadGuard(auth: Auth, events: map<string, Event>, eventId: string, file: Option<R2.File>): (g: Option<Reply<Banner>>)
    ensures !auth.Authenticated? ==> g == Some(Unauthorized(auth))
    ensures auth.Authenticated? && eventId !in events ==> g == Some(Fail(MsgEventNotFound, 404))
    ensures auth.Authenticated? && eventId in events
            && !CheckOwnership(auth.userId, events[eventId].createdBy)
            ==> g == Some(Fail(MsgNotOwnerUpload, 403))
    ensures auth.Authenticated? && eventId in events
            && CheckOwnership(auth.userId, events[eventId].createdBy) && file.None?
            ==> g == Some(Fail(MsgNoFile, 400))
    ensures g.None? <==> auth.Authenticated? && eventId in events
                         && events[eventId].createdBy == auth.userId && file.Some?
    ensures g.Some? ==> g.value.status in {401, 404, 403, 400}
  {
    if !auth.Authenticated? then Some(Unauthorized(auth))
    else if eventId !in events then Some(Fail(MsgEventNotFound, 404))
    else if !CheckOwnership(auth.userId, events[eventId].createdBy) then Some(Fail(MsgNotOwnerUpload, 403))
    else if file.None? then Some(Fail(MsgNoFile, 400))
    else None
  }

  /** The banner-delete handler's guards, in its order: the session, the event, its
      owner, a banner to delete. None when all of them pass. */
  function DeleteBannerGuard(auth: Auth, events: map<string, Event>, eventId: string): (g: Option<Reply<Event>>)
    ensures !auth.Authenticated? ==> g == Some(Unauthorized(auth))
    ensures auth.Authenticated? && eventId !in events ==> g == Some(Fail(MsgEventNotFound, 404))
    ensures auth.Authenticated? && eventId in events
            && !CheckOwnership(auth.userId, events[eventId].createdBy)
            ==> g == Some(Fail(MsgNotOwnerBanner, 403))
    ensures auth.Authenticated? && eventId in events
            && CheckOwnership(auth.userId, events[eventId].createdBy)
            && !Truthy(events[eventId].bannerUrl)
            ==> g == Some(Fail(MsgNoBanner, 400))
    ensures g.None? <==> auth.Authenticated? && eventId in events
                         && events[eventId].createdBy == auth.userId && Truthy(events[eventId].bannerUrl)
    ensures g.Some? ==> g.value.status in {401, 404, 403, 400}
  {
    if !auth.Authenticated? then Some(Unauthorized(auth))
    else if eventId !in events then Some(Fail(MsgEventNotFound, 404))
    else if !CheckOwnership(auth.userId, events[eventId].createdBy) then Some(Fail(MsgNotOwnerBanner, 403))
    else if !Truthy(events[eventId].bannerUrl) then Some(Fail(MsgNoBanner, 400))
    else None
  }

  class EventHub {
    var users: map<string, User>
    var events: map<string, Event>
    var attendees: map<string, Attendee>
    var sessions: map<string, Session>
    /** The keys of the objects in the image bucket. */
    var bucket: set<string>

    function Db(): Tables
      reads this`users, this`events, this`attendees, this`sessions
    {
      Tables(users, events, attendees, sessions)
    }

    /** The schema's constraints, plus the two the join handler maintains on its own. */
    ghost predicate Valid()
      reads this`users, this`events, this`attendees, this`sessions
    {
      Consistent(Db())
    }

    /** The middleware's promise: an authenticated caller is a stored user. */
    predicate KnownCaller(auth: Auth)
      reads this
    {
      auth.Authenticated? ==> auth.userId in users
    }

    constructor (db: Tables, objects: set<string>)
      requires Consistent(db)
      ensures Valid() && Db() == db && bucket == objects
    {
      users, events, attendees, sessions := db.users, db.events, db.attendees, db.sessions;
      bucket := objects;
    }

    /** Writes a changed row of an existing event that keeps its key and its creator. */
    method Rewrite(eventId: string, e: Event)
      requires Valid() && eventId in events
      requires e.id == events[eventId].id && e.createdBy == events[eventId].createdBy
      modifies this`events
      ensures Valid() && events == old(events)[eventId := e]
    {
      EditKeepsConsistent(Db(), e);
      events := events[eventId := e];
    }

    /** Records a stored banner object and points the event at its URL. */
    method PutBanner(eventId: string, s: R2.Stored)
      requires Valid() && eventId in events
      modifies this`events, this`bucket
      ensures Valid()
      ensures events == old(events)[eventId := old(events)[eventId].(bannerUrl := Some(s.url))]
      ensures bucket == old(bucket) + {s.key}
    {
      bucket := bucket + {s.key};
      Rewrite(eventId, events[eventId].(bannerUrl := Some(s.url)));
    }

    // ------------------------------------------------------ attendees

    /** `POST /api/attendees/:eventId/join` */
    method Join(auth: Auth, eventId: string, nano: string, now: int) returns (r: Reply<Attendee>)
      requires Valid() && KnownCaller(auth)
      modifies this`attendees
      ensures Valid()
      ensures !auth.Authenticated? ==> r == Unauthorized(auth)
      ensures auth.Authenticated? && eventId !in events ==> r == Fail(MsgEventNotFound, 404)
      ensures auth.Authenticated? && eventId in events && events[eventId].createdBy == auth.userId
              ==> r == Fail(MsgCreatorJoin, 400)
      ensures auth.Authenticated? && eventId in events && events[eventId].createdBy != auth.userId
              && HasRecord(old(attendees), auth.userId, eventId)
              ==> r == Fail(MsgAlreadyJoined, 400)
      ensures auth.Authenticated? && eventId in events && events[eventId].createdBy != auth.userId
              && !HasRecord(old(attendees), auth.userId, eventId)
              && HasCap(events[eventId]) && Count(old(attendees), eventId) >= events[eventId].maxAttendees.value
              ==> r == Fail(MsgFull, 400)
      ensures auth.Authenticated? && eventId in events && events[eventId].createdBy != auth.userId
              && !HasRecord(old(attendees), auth.userId, eventId)
              && !(HasCap(events[eventId]) && Count(old(attendees), eventId) >= events[eventId].maxAttendees.value)
              && GenerateId(Some("attendee"), nano) in old(attendees)
              ==> r == Fail(MsgJoinFailed, 500)
      ensures auth.Authenticated? && eventId in events && events[eventId].createdBy != auth.userId
              && !HasRecord(old(attendees), auth.userId, eventId)
              && !(HasCap(events[eventId]) && Count(old(attendees), eventId) >= events[eventId].maxAttendees.value)
              && GenerateId(Some("attendee"), nano) !in old(attendees)
              ==> r.status == 201
      ensures r.status != 201 ==> attendees == old(attendees)
      ensures r.status == 201 ==>
                auth.Authenticated? && eventId in events && events[eventId].createdBy != auth.userId
                && !HasRecord(old(attendees), auth.userId, eventId)
                && (HasCap(events[eventId]) ==> Count(old(attendees), eventId) < events[eventId].maxAttendees.value)
      ensures r.status == 201 ==>
                var id := GenerateId(Some("attendee"), nano);
                var a := Attendee(id, auth.userId, eventId, now);
                id !in old(attendees) && attendees == old(attendees)[id := a] && r == Done(201, a, MsgJoined)
      ensures r.status == 201 ==> Count(attendees, eventId) == Count(old(attendees), eventId) + 1
      ensures forall k :: k in events && WithinCapacity(old(attendees), events[k])
                          ==> WithinCapacity(attendees, events[k])
      ensures r.status == 201 ==> WithinCapacity(attendees, events[eventId])
    {
      if !auth.Authenticated? {
        return Unauthorized(auth);
      }
      var userId := auth.userId;
      if eventId !in events {
        return Fail(MsgEventNotFound, 404);
      }
      var event := events[eventId];
      if event.createdBy == userId {
        return Fail(MsgCreatorJoin, 400);
      }
      if HasRecord(attendees, userId, eventId) {
        return Fail(MsgAlreadyJoined, 400);
      }
      if HasCap(event) && Count(attendees, eventId) >= event.maxAttendees.value {
        return Fail(MsgFull, 400);
      }
      var id := GenerateId(Some("attendee"), nano);
      if id in attendees {
        return Fail(MsgJoinFailed, 500);
      }
      var a := Attendee(id, userId, eventId, now);
      JoinKeepsConsistent(Db(), id, a);
      forall k | k in events && WithinCapacity(attendees, events[k])
        ensures WithinCapacity(attendees[id := a], events[k])
      {
        InsertKeepsCapacity(attendees, id, a, events[k]);
      }
      CountAfterInsert(attendees, id, a, eventId);
      attendees := attendees[id := a];
      r := Done(201, a, MsgJoined);
    }

    /** `DELETE /api/attendees/:eventId/leave`. It does not look the event up. */
    method Leave(auth: Auth, eventId: string) returns (r: Reply<()>)
      requires Valid()
      modifies this`attendees
      ensures Valid()
      ensures !auth.Authenticated? ==> r == Unauthorized(auth)
      ensures auth.Authenticated? && !HasRecord(old(attendees), auth.userId, eventId)
              ==> r == Fail(MsgNotAttending, 400)
      ensures auth.Authenticated? && HasRecord(old(attendees), auth.userId, eventId) ==> r.status == 200
      ensures r.status != 200 ==> attendees == old(attendees)
      ensures r.status == 200 ==>
                auth.Authenticated? && HasRecord(old(attendees), auth.userId, eventId)
                && attendees == RemovePair(old(attendees), auth.userId, eventId)
                && r == Done(200, (), MsgLeft)
      ensures r.status == 200 ==> Count(attendees, eventId) == Count(old(attendees), eventId) - 1
    {
      if !auth.Authenticated? {
        return Unauthorized(auth);
      }
      if !HasRecord(attendees, auth.userId, eventId) {
        return Fail(MsgNotAttending, 400);
      }
      CountAfterRemovePair(attendees, auth.userId, eventId);
      LeaveKeepsConsistent(Db(), auth.userId, eventId);
      attendees := RemovePair(attendees, auth.userId, eventId);
      r := Done(200, (), MsgLeft);
    }

    /** `GET /api/attendees/:eventId` */
    method ListAttendees(eventId: string) returns (r: Reply<set<Attendee>>)
      ensures eventId !in events ==> r == Fail(MsgEventNotFound, 404)
      ensures eventId in events ==> r.status == 200 && r.body.Succeeded?
      ensures r.status == 200 ==>
                forall a :: a in r.body.ok.data <==> a in attendees.Values && a.eventId == eventId
    {
      if eventId !in events {
        return Fail(MsgEventNotFound, 404);
      }
      var rows := set k | k in attendees && attendees[k].eventId == eventId :: attendees[k];
      r := Done(200, rows, "");
    }

    /** `GET /api/attendees/user/joined` */
    method JoinedEvents(auth: Auth) returns (r: Reply<set<Joined>>)
      requires Valid()
      ensures !auth.Authenticated? ==> r == Unauthorized(auth)
      ensures auth.Authenticated? ==> r.status == 200 && r.body.Succeeded?
      ensures r.status == 200 ==>
                forall k :: k in attendees && attendees[k].userId == auth.userId ==>
                  Joined(events[attendees[k].eventId], attendees[k].joinedAt) in r.body.ok.data
      ensures r.status == 200 ==>
                forall j :: j in r.body.ok.data ==>
                  exists k :: k in attendees && attendees[k].userId == auth.userId
                              && j == Joined(events[attendees[k].eventId], attendees[k].joinedAt)
      ensures r.status == 200 ==>
                forall j :: j in r.body.ok.data ==>
                  (j.event.id in events && j.event == events[j.event.id]
                   && HasRecord(attendees, auth.userId, j.event.id))
    {
      if !auth.Authenticated? {
        return Unauthorized(auth);
      }
      var rows := set k | k in attendees && attendees[k].userId == auth.userId
                    :: Joined(events[attendees[k].eventId], attendees[k].joinedAt);
      r := Done(200, rows, "");
    }

    // --------------------------------------------------------- events

    /** `GET /api/events/:id` */
    method GetEvent(eventId: string) returns (r: Reply<EventWithCount>)
      ensures eventId !in events ==> r == Fail(MsgEventNotFound, 404)
      ensures eventId in events ==>
                r == Done(200, EventWithCount(events[eventId], Count(attendees, eventId)), "")
    {
      if eventId !in events {
        return Fail(MsgEventNotFound, 404);
      }
      r := Done(200, EventWithCount(events[eventId], Count(attendees, eventId)), "");
    }

    /** `POST /api/events` */
    method CreateEvent(auth: Auth, input: CreateEventInput, nano: string, now: int) returns (r: Reply<Event>)
      requires Valid() && KnownCaller(auth)
      modifies this`events
      ensures Valid()
      ensures !auth.Authenticated? ==> r == Unauthorized(auth)
      ensures auth.Authenticated? && !ValidCreate(input) ==> r == Reply(400, SchemaRejected(CreateIssues(input)))
      ensures auth.Authenticated? && ValidCreate(input) && !IsFutureDate(input.date, now)
              ==> r == Fail(MsgPastDate, 400)
      ensures auth.Authenticated? && ValidCreate(input) && IsFutureDate(input.date, now)
              && GenerateId(Some("event"), nano) in old(events)
              ==> r == Fail(MsgCreateFailed, 500)
      ensures auth.Authenticated? && ValidCreate(input) && IsFutureDate(input.date, now)
              && GenerateId(Some("event"), nano) !in old(events)
              ==> r.status == 201
      ensures r.status != 201 ==> events == old(events)
      ensures r.status == 201 ==>
                var id := GenerateId(Some("event"), nano);
                var e := EventRules.NewEvent(id, input, auth.userId, now);
                auth.Authenticated? && ValidCreate(input) && input.date > now
                && id !in old(events) && events == old(events)[id := e] && r == Done(201, e, MsgCreated)
    {
      if !auth.Authenticated? {
        return Unauthorized(auth);
      }
      if !ValidCreate(input) {
        return Reply(400, SchemaRejected(CreateIssues(input)));
      }
      if !IsFutureDate(input.date, now) {
        return Fail(MsgPastDate, 400);
      }
      var id := GenerateId(Some("event"), nano);
      if id in events {
        return Fail(MsgCreateFailed, 500);
      }
      var e := EventRules.NewEvent(id, input, auth.userId, now);
      CreateKeepsConsistent(Db(), e);
      events := events[id := e];
      r := Done(201, e, MsgCreated);
    }

    /** `PUT /api/events/:id`, applying only the fields of the update schema. */
    method UpdateEvent(auth: Auth, eventId: string, patch: UpdateEventInput, now: int) returns (r: Reply<Event>)
      requires Valid()
      modifies this`events
      ensures Valid()
      ensures !auth.Authenticated? ==> r == Unauthorized(auth)
      ensures auth.Authenticated? && !ValidUpdate(patch) ==> r == Reply(400, SchemaRejected(UpdateIssues(patch)))
      ensures auth.Authenticated? && ValidUpdate(patch) && eventId !in old(events)
              ==> r == Fail(MsgEventNotFound, 404)
      ensures auth.Authenticated? && ValidUpdate(patch) && eventId in old(events)
              && !CheckOwnership(auth.userId, old(events)[eventId].createdBy)
              ==> r == Fail(MsgNotOwnerUpdate, 403)
      ensures auth.Authenticated? && ValidUpdate(patch) && eventId in old(events)
              && CheckOwnership(auth.userId, old(events)[eventId].createdBy)
              && patch.date.Some? && !IsFutureDate(patch.date.value, now)
              ==> r == Fail(MsgPastDate, 400)
      ensures auth.Authenticated? && ValidUpdate(patch) && eventId in old(events)
              && CheckOwnership(auth.userId, old(events)[eventId].createdBy)
              && (patch.date.Some? ==> IsFutureDate(patch.date.value, now))
              ==> r.status == 200
      ensures r.status != 200 ==> events == old(events)
      ensures r.status == 200 ==>
                auth.Authenticated? && eventId in old(events)
                && old(events)[eventId].createdBy == auth.userId
                && (patch.date.Some? ==> patch.date.value > now)
                && var e := EventRules.ApplyPatch(old(events)[eventId], patch, now);
                   events == old(events)[eventId := e] && r == Done(200, e, MsgUpdated)
    {
      if !auth.Authenticated? {
        return Unauthorized(auth);
      }
      if !ValidUpdate(patch) {
        return Reply(400, SchemaRejected(UpdateIssues(patch)));
      }
      if eventId !in events {
        return Fail(MsgEventNotFound, 404);
      }
      var existing := events[eventId];
      if !CheckOwnership(auth.userId, existing.createdBy) {
        return Fail(MsgNotOwnerUpdate, 403);
      }
      if patch.date.Some? && !IsFutureDate(patch.date.value, now) {
        return Fail(MsgPastDate, 400);
      }
      var e := EventRules.ApplyPatch(existing, patch, now);
      Rewrite(eventId, e);
      r := Done(200, e, MsgUpdated);
    }

    /** `DELETE /api/events/:id`; the database cascades to the event's attendee rows. */
    method DeleteEvent(auth: Auth, eventId: string) returns (r: Reply<()>)
      requires Valid()
      modifies this`events, this`attendees
      ensures Valid()
      ensures !auth.Authenticated? ==> r == Unauthorized(auth)
      ensures auth.Authenticated? && eventId !in old(events) ==> r == Fail(MsgEventNotFound, 404)
      ensures auth.Authenticated? && eventId in old(events)
              && !CheckOwnership(auth.userId, old(events)[eventId].createdBy)
              ==> r == Fail(MsgNotOwnerDelete, 403)
      ensures auth.Authenticated? && eventId in old(events)
              && CheckOwnership(auth.userId, old(events)[eventId].createdBy)
              ==> r.status == 200
      ensures r.status != 200 ==> events == old(events) && attendees == old(attendees)
      ensures r.status == 200 ==>
                auth.Authenticated? && eventId in old(events)
                && old(events)[eventId].createdBy == auth.userId
                && Db() == Schema.DeleteEvent(old(Db()), eventId)
                && r == Done(200, (), MsgDeleted)
      ensures r.status == 200 ==> eventId !in events && Count(attendees, eventId) == 0
    {
      if !auth.Authenticated? {
        return Unauthorized(auth);
      }
      if eventId !in events {
        return Fail(MsgEventNotFound, 404);
      }
      if !CheckOwnership(auth.userId, events[eventId].createdBy) {
        return Fail(MsgNotOwnerDelete, 403);
      }
      var after := Schema.DeleteEvent(Db(), eventId);
      DeleteEventKeepsConsistent(Db(), eventId);
      DeleteEventCascades(Db(), eventId);
      events, attendees := after.events, after.attendees;
      r := Done(200, (), MsgDeleted);
    }

    // --------------------------------------------------------- banners

    /** `POST /api/upload/:eventId/banner` as written: the old banner's object is deleted
        before `uploadToR2` checks the new file. A failed delete of the old object is
        logged and ignored. */
    method UploadBannerAsWritten(auth: Auth, eventId: string, file: Option<R2.File>, nano: string,
                                 oldDeleteFails: bool) returns (r: Reply<Banner>)
      requires Valid()
      modifies this`events, this`bucket
      ensures Valid()
      ensures UploadGuard(auth, old(events), eventId, file).Some?
              ==> r == UploadGuard(auth, old(events), eventId, file).value
                  && events == old(events) && bucket == old(bucket)
      ensures UploadGuard(auth, old(events), eventId, file).None?
              && R2.PrepareUpload(file.value, BannerFolder, nano).Err?
              ==> r == Fail(R2.PrepareUpload(file.value, BannerFolder, nano).message, 500)
                  && events == old(events)
                  && bucket == WithoutOldBanner(old(bucket), old(events)[eventId], oldDeleteFails)
                  && (BannerKey(old(events)[eventId]).Some? && !oldDeleteFails
                      ==> !BannerStored(events[eventId], bucket))
      ensures UploadGuard(auth, old(events), eventId, file).None?
              && R2.PrepareUpload(file.value, BannerFolder, nano).Ok?
              ==> var s := R2.PrepareUpload(file.value, BannerFolder, nano).value;
                  var e := old(events)[eventId].(bannerUrl := Some(s.url));
                  events == old(events)[eventId := e]
                  && bucket == WithoutOldBanner(old(bucket), old(events)[eventId], oldDeleteFails) + {s.key}
                  && r == Done(200, Banner(e, s.url), MsgUploaded)
    {
      var guard := UploadGuard(auth, events, eventId, file);
      if guard.Some? {
        return guard.value;
      }
      var event := events[eventId];
      bucket := WithoutOldBanner(bucket, event, oldDeleteFails);
      var upload := R2.PrepareUpload(file.value, BannerFolder, nano);
      if upload.Err? {
        OldBannerGone(event, old(bucket), oldDeleteFails);
        return Fail(upload.message, 500);
      }
      PutBanner(eventId, upload.value);
      r := Done(200, Banner(events[eventId], upload.value.url), MsgUploaded);
    }

    /** `POST /api/upload/:eventId/banner` with the new file checked before the old banner
        is deleted, so a rejected file changes nothing. */
    method UploadBanner(auth: Auth, eventId: string, file: Option<R2.File>, nano: string,
                        oldDeleteFails: bool) returns (r: Reply<Banner>)
      requires Valid()
      modifies this`events, this`bucket
      ensures Valid()
      ensures UploadGuard(auth, old(events), eventId, file).Some?
              ==> r == UploadGuard(auth, old(events), eventId, file).value
      ensures UploadGuard(auth, old(events), eventId, file).None?
              && R2.PrepareUpload(file.value, BannerFolder, nano).Err?
              ==> r == Fail(R2.PrepareUpload(file.value, BannerFolder, nano).message, 500)
      ensures r.status != 200 ==> events == old(events) && bucket == old(bucket)
      ensures UploadGuard(auth, old(events), eventId, file).None?
              && R2.PrepareUpload(file.value, BannerFolder, nano).Ok?
              ==> var s := R2.PrepareUpload(file.value, BannerFolder, nano).value;
                  var e := old(events)[eventId].(bannerUrl := Some(s.url));
                  events == old(events)[eventId := e]
                  && bucket == WithoutOldBanner(old(bucket), old(events)[eventId], oldDeleteFails) + {s.key}
                  && r == Done(200, Banner(e, s.url), MsgUploaded)
      ensures r.status == 200 && R2.NanoId(nano) && R2.AllUrlSafe(Extension(file.value.name))
              ==> BannerStored(events[eventId], bucket)
    {
      var guard := UploadGuard(auth, events, eventId, file);
      if guard.Some? {
        return guard.value;
      }
      r := ReplaceBanner(eventId, file.value, nano, oldDeleteFails);
    }

    /** The upload handler past its checks: the new file is validated, and only then is
        the old banner's object deleted and the new one stored. */
    method ReplaceBanner(eventId: string, file: R2.File, nano: string, oldDeleteFails: bool)
      returns (r: Reply<Banner>)
      requires Valid() && eventId in events
      modifies this`events, this`bucket
      ensures Valid()
      ensures R2.PrepareUpload(file, BannerFolder, nano).Err?
              ==> r == Fail(R2.PrepareUpload(file, BannerFolder, nano).message, 500)
                  && events == old(events) && bucket == old(bucket)
      ensures R2.PrepareUpload(file, BannerFolder, nano).Ok?
              ==> var s := R2.PrepareUpload(file, BannerFolder, nano).value;
                  var e := old(events)[eventId].(bannerUrl := Some(s.url));
                  events == old(events)[eventId := e]
                  && bucket == WithoutOldBanner(old(bucket), old(events)[eventId], oldDeleteFails) + {s.key}
                  && r == Done(200, Banner(e, s.url), MsgUploaded)
                  && (R2.NanoId(nano) && R2.AllUrlSafe(Extension(file.name))
                      ==> BannerStored(events[eventId], bucket))
    {
      var event := events[eventId];
      var upload := R2.PrepareUpload(file, BannerFolder, nano);
      if upload.Err? {
        return Fail(upload.message, 500);
      }
      ghost var kept := WithoutOldBanner(bucket, event, oldDeleteFails);
      r := InstallBanner(eventId, upload.value, oldDeleteFails);
      if R2.NanoId(nano) && R2.AllUrlSafe(Extension(file.name)) {
        NewBannerStored(event, file, nano, kept);
      }
    }

    /** Deletes the old banner's object (unless that delete fails), then stores the new one. */
    method InstallBanner(eventId: string, s: R2.Stored, oldDeleteFails: bool) returns (r: Reply<Banner>)
      requires Valid() && eventId in events
      modifies this`events, this`bucket
      ensures Valid()
      ensures var e := old(events)[eventId].(bannerUrl := Some(s.url));
              events == old(events)[eventId := e]
              && bucket == WithoutOldBanner(old(bucket), old(events)[eventId], oldDeleteFails) + {s.key}
              && r == Done(200, Banner(e, s.url), MsgUploaded)
    {
      bucket := WithoutOldBanner(bucket, events[eventId], oldDeleteFails);
      PutBanner(eventId, s);
      r := Done(200, Banner(events[eventId], s.url), MsgUploaded);
    }


    /** `DELETE /api/upload/:eventId/banner`. A failed delete of the object is not caught
        here: the handler answers 500 and keeps the URL. */
    method DeleteBanner(auth: Auth, eventId: string, deleteFails: bool) returns (r: Reply<Event>)
      requires Valid()
      modifies this`events, this`bucket
      ensures Valid()
      ensures DeleteBannerGuard(auth, old(events), eventId).Some? ==> r == DeleteBannerGuard(auth, old(events), eventId).value
      ensures DeleteBannerGuard(auth, old(events), eventId).None? && BannerKey(old(events)[eventId]).Some? && deleteFails
              ==> r == Fail(MsgBannerDeleteFailed, 500)
      ensures r.status != 200 ==> events == old(events) && bucket == old(bucket)
      ensures DeleteBannerGuard(auth, old(events), eventId).None?
              && !(BannerKey(old(events)[eventId]).Some? && deleteFails)
              ==> var e := old(events)[eventId].(bannerUrl := None);
                  events == old(events)[eventId := e]
                  && bucket == WithoutOldBanner(old(bucket), old(events)[eventId], false)
                  && r == Done(200, e, MsgBannerDeleted)
    {
      var guard := DeleteBannerGuard(auth, events, eventId);
      if guard.Some? {
        return guard.value;
      }
      var event := events[eventId];
      var key := R2.ExtractR2Key(event.bannerUrl.value);
      if Truthy(key) {
        if deleteFails {
          return Fail(MsgBannerDeleteFailed, 500);
        }
        bucket := bucket - {key.value};
      }
      var e := event.(bannerUrl := None);
      Rewrite(eventId, e);
      r := Done(200, e, MsgBannerDeleted);
    }
  }
}
