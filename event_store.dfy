/** The event store and the three handlers that use it: upsert (create or
    update), get (lookup and privacy switch) and remove (owner-scoped lookup
    and delete). Each handler is a method of `Store`; the function beside it
    states the response it sends and the store it leaves. */
module EventStore {
  import opened Events
  import opened Visibility

  datatype HttpMethod = Post | Put | OtherMethod

  /** An upsert request body after validation and coercion. `None` is a key
      the request left out. */
  datatype UpsertRequest = UpsertRequest(
    httpMethod: HttpMethod,
    validation: Validation,
    id: Option<EventId>,
    name: string,
    category: string,
    time: int,
    duration: int,
    location: string,
    privacy: string,
    maxParticipants: int,
    coordinateLat: Option<real>,
    coordinateLon: Option<real>,
    remarks: Option<string>,
    photo: Option<string>)

  /** What the photo uploader returns when it is called. */
  datatype UploadResult = Uploaded(url: string) | UploadFailed(reason: string)

  /** The field set built before persistence. An optional field that is
      `None` is a key the storage layer ignores: left unset (null) on create,
      left unchanged on update. */
  datatype Draft = Draft(
    ownerId: UserId,
    name: string,
    category: string,
    startsAt: int,
    duration: int,
    location: string,
    privacy: string,
    maxParticipants: int,
    coordinateLat: Option<real>,
    coordinateLon: Option<real>,
    remarks: Option<string>,
    photoUrl: Option<string>)

  /** A photo is supplied when the field is present and truthy (not empty). */
  function PhotoSupplied(photo: Option<string>): (supplied: bool)
    // an absent key and an empty string are both falsy
    ensures photo.None? ==> !supplied
    ensures photo == Some("") ==> !supplied
    ensures supplied <==> photo.Some? && |photo.value| > 0
  {
    photo.Some? && photo.value != ""
  }

  /** The fields every upsert writes: the caller as owner, the start time
      converted from seconds to milliseconds, and `photoUrl` only when given. */
  function BuildDraft(caller: UserId, req: UpsertRequest, photoUrl: Option<string>): (d: Draft)
    ensures d.ownerId == caller
    // the stored milliseconds are a whole number of seconds and give back the request's time
    ensures d.startsAt % 1000 == 0 && d.startsAt / 1000 == req.time
    ensures d.photoUrl == photoUrl
  {
    Draft(caller, req.name, req.category, req.time * 1000, req.duration, req.location,
          req.privacy, req.maxParticipants, req.coordinateLat, req.coordinateLon,
          req.remarks, photoUrl)
  }

  /** The row a create inserts: the draft, a fresh id, and the caller as the
      only participant. */
  function NewRecord(id: EventId, caller: UserId, d: Draft): (r: Event)
    ensures r.id == id && r.ownerId == d.ownerId
    ensures r.participants == {caller}
    ensures r.startsAt == d.startsAt && r.photoUrl == d.photoUrl
    ensures r.coordinateLat == d.coordinateLat && r.coordinateLon == d.coordinateLon
    ensures r.remarks == d.remarks
  {
    Event(id, d.ownerId, d.name, d.category, d.startsAt, d.duration, d.location,
          d.privacy, d.maxParticipants, d.coordinateLat, d.coordinateLon,
          d.remarks, d.photoUrl, {caller})
  }

  /** Keeps `current` where the draft leaves a key out. */
  function Merge<T>(current: Option<T>, given: Option<T>): (r: Option<T>)
    ensures r == given || r == current
    ensures given.Some? ==> r == given
    // a missing key never clears a value
    ensures r.None? ==> current.None? && given.None?
  {
    if given.Some? then given else current
  }

  /** The row an update leaves: the draft's fields written over `e`; the id
      and the participants are not touched. */
  function Overwrite(e: Event, d: Draft): (r: Event)
    ensures r.id == e.id && r.participants == e.participants
    ensures r.ownerId == d.ownerId
    // an update never clears an optional field the row already has
    ensures e.coordinateLat.Some? ==> r.coordinateLat.Some?
    ensures e.coordinateLon.Some? ==> r.coordinateLon.Some?
    ensures e.remarks.Some? ==> r.remarks.Some?
    ensures e.photoUrl.Some? ==> r.photoUrl.Some?
  {
    Event(e.id, d.ownerId, d.name, d.category, d.startsAt, d.duration, d.location,
          d.privacy, d.maxParticipants, Merge(e.coordinateLat, d.coordinateLat),
          Merge(e.coordinateLon, d.coordinateLon), Merge(e.remarks, d.remarks),
          Merge(e.photoUrl, d.photoUrl), e.participants)
  }

  /** Every row is stored under its own id, and every id is below the next
      auto-increment value (which starts at 1). */
  ghost predicate StoreInvariant(events: map<EventId, Event>, nextId: EventId)
  {
    && 1 <= nextId
    && forall k :: k in events ==> 1 <= k < nextId && events[k].id == k
  }

  /** The response of a handler and the store it leaves behind. */
  datatype Outcome = Outcome(response: Response, events: map<EventId, Event>, nextId: EventId)

  /** The upsert handler. Validation comes first, then the photo upload (a
      failure aborts before anything is written), then the create or the
      update chosen by the HTTP method. `upload` is what the uploader returns
      if it is called. */
  function UpsertOutcome(events: map<EventId, Event>, nextId: EventId, caller: UserId,
                         req: UpsertRequest, upload: UploadResult): (o: Outcome)
    // a failed upsert writes nothing
    ensures o.response.Err? ==> o.events == events && o.nextId == nextId
    // every success is a 201, and a returned row is stored and owned by the caller
    ensures o.response.Ok? ==> o.response.status == StatusCreated
    ensures o.response.Ok? && o.response.event.Some? ==>
              o.response.event.value.ownerId == caller && o.response.event.value in o.events.Values
    // an upsert never deletes, and only a create adds a key (the counter's) and advances the counter
    ensures events.Keys <= o.events.Keys
    ensures o.events.Keys == events.Keys || (req.httpMethod.Post? && o.events.Keys == events.Keys + {nextId})
    ensures o.nextId == nextId || (req.httpMethod.Post? && o.nextId == nextId + 1)
  {
    if req.validation.Failed? then
      Outcome(Err(HttpError(StatusUnprocessable, InvalidInput + " " + req.validation.details)), events, nextId)
    else if PhotoSupplied(req.photo) && upload.UploadFailed? then
      Outcome(Err(HttpError(StatusServerError, UploadErrorPrefix + upload.reason)), events, nextId)
    else
      var photoUrl := if PhotoSupplied(req.photo) then Some(upload.url) else None;
      var d := BuildDraft(caller, req, photoUrl);
      match req.httpMethod
      case Post =>
        var e := NewRecord(nextId, caller, d);
        assert events[nextId := e][nextId] == e;
        Outcome(Ok(StatusCreated, Some(e)), events[nextId := e], nextId + 1)
      case Put =>
        if req.id.None? then
          Outcome(Err(HttpError(StatusUnprocessable, InvalidInput)), events, nextId)
        else if req.id.value !in events then
          Outcome(Err(DatabaseError), events, nextId)
        else
          var e := Overwrite(events[req.id.value], d);
          assert events[req.id.value := e][req.id.value] == e;
          Outcome(Ok(StatusCreated, Some(e)), events[req.id.value := e], nextId)
      case OtherMethod =>
        Outcome(Ok(StatusCreated, None), events, nextId)
  }

  /** Every upsert outcome keeps the store invariant: a create uses the next
      id and advances the counter, an update keeps the row's id. */
  lemma UpsertPreservesInvariant(events: map<EventId, Event>, nextId: EventId, caller: UserId,
                                 req: UpsertRequest, upload: UploadResult)
    requires StoreInvariant(events, nextId)
    ensures var o := UpsertOutcome(events, nextId, caller, req, upload);
            StoreInvariant(o.events, o.nextId)
  {
  }

  /** The get handler: validation, then the lookup (a missing event is a 409
      before any friend list is computed), then the privacy switch. */
  function GetResponse(events: map<EventId, Event>, validation: Validation, id: EventId,
                       viewer: UserId, service: FriendService): (r: Response)
    // a failed validation is a 422, before any lookup
    ensures validation.Failed? ==> r == Err(HttpError(StatusUnprocessable, InvalidInput))
    // a success returns the stored row unchanged
    ensures r.Ok? ==> r.status == StatusOk && id in events && r.event == Some(events[id])
    // a refusal is only issued for an event that exists, and only by the privacy switch
    ensures r == Err(HttpError(StatusUnauthorized, AccessDenied)) ==>
              id in events && !CanView(events[id].privacy, events[id].ownerId, viewer, service)
    // the owner of an only-me event always reads it
    ensures validation.Passed? && id in events && events[id].privacy == OnlyMe && events[id].ownerId == viewer ==>
              r.Ok?
  {
    if validation.Failed? then
      Err(HttpError(StatusUnprocessable, InvalidInput))
    else if id !in events then
      Err(HttpError(StatusConflict, EventNotFound))
    else if CanView(events[id].privacy, events[id].ownerId, viewer, service) then
      Ok(StatusOk, Some(events[id]))
    else
      Err(HttpError(StatusUnauthorized, AccessDenied))
  }

  /** True when the remove handler's lookup, keyed on both id and owner,
      finds a row. */
  predicate OwnedBy(events: map<EventId, Event>, id: EventId, caller: UserId)
  {
    id in events && events[id].ownerId == caller
  }

  /** The lookup is keyed on the map, the query on the rows' `id` and
      `ownerId` columns; under the store invariant they find the same thing. */
  lemma OwnedByIsRowQuery(events: map<EventId, Event>, nextId: EventId, id: EventId, caller: UserId)
    requires StoreInvariant(events, nextId)
    ensures OwnedBy(events, id, caller) <==>
            exists k :: k in events && events[k].id == id && events[k].ownerId == caller
  {
  }

  /** The remove handler: validation, then delete only a row with this id
      owned by the caller; anything else is a 409 and changes nothing. */
  function RemoveOutcome(events: map<EventId, Event>, validation: Validation, id: EventId,
                         caller: UserId): (r: (Response, map<EventId, Event>))
    // a failed validation is a 422 and deletes nothing
    ensures validation.Failed? ==> r == (Err(HttpError(StatusUnprocessable, InvalidInput)), events)
    ensures r.0.Ok? <==> validation.Passed? && OwnedBy(events, id, caller)
    ensures r.0.Ok? ==> id !in r.1 && r.1.Keys == events.Keys - {id}
    ensures !r.0.Ok? ==> r.1 == events
    // no row is added or altered
    ensures forall k :: k in r.1 ==> k in events && r.1[k] == events[k]
  {
    if validation.Failed? then
      (Err(HttpError(StatusUnprocessable, InvalidInput)), events)
    else if OwnedBy(events, id, caller) then
      (Ok(StatusOk, None), events - {id})
    else
      (Err(HttpError(StatusConflict, EventNotFound)), events)
  }

  /** The event table, with its auto-increment counter. */
  class Store {
    var events: map<EventId, Event>
    var nextId: EventId

    ghost predicate Valid()
      reads this
    {
      StoreInvariant(events, nextId)
    }

    constructor ()
      ensures Valid() && events == map[] && nextId == 1
    {
      events := map[];
      nextId := 1;
    }

    method Upsert(caller: UserId, req: UpsertRequest, upload: UploadResult) returns (r: Response)
      requires Valid()
      modifies this
      ensures Valid()
      ensures var o := UpsertOutcome(old(events), old(nextId), caller, req, upload);
              r == o.response && events == o.events && nextId == o.nextId
    {
      UpsertPreservesInvariant(events, nextId, caller, req, upload);
      if req.validation.Failed? {
        return Err(HttpError(StatusUnprocessable, InvalidInput + " " + req.validation.details));
      }
      var photoUrl: Option<string> := None;
      if PhotoSupplied(req.photo) {
        match upload {
          case UploadFailed(reason) =>
            return Err(HttpError(StatusServerError, UploadErrorPrefix + reason));
          case Uploaded(url) =>
            photoUrl := Some(url);
        }
      }
      var draft := BuildDraft(caller, req, photoUrl);
      var result: Option<Event> := None;
      match req.httpMethod {
        case Post =>
          var e := NewRecord(nextId, caller, draft);
          events := events[nextId := e];
          nextId := nextId + 1;
          result := Some(e);
        case Put =>
          if req.id.None? {
            return Err(HttpError(StatusUnprocessable, InvalidInput));
          }
          var id := req.id.value;
          if id !in events {
            return Err(DatabaseError);
          }
          var e := Overwrite(events[id], draft);
          events := events[id := e];
          result := Some(e);
        case OtherMethod =>
      }
      r := Ok(StatusCreated, result);
    }

    method Get(validation: Validation, id: EventId, viewer: UserId, service: FriendService)
      returns (r: Response)
      ensures r == GetResponse(events, validation, id, viewer, service)
    {
      if validation.Failed? {
        return Err(HttpError(StatusUnprocessable, InvalidInput));
      }
      if id !in events {
        return Err(HttpError(StatusConflict, EventNotFound));
      }
      var event := events[id];
      var privacy := event.privacy;
      if privacy == OnlyMe {
        if event.ownerId != viewer {
          return Err(HttpError(StatusUnauthorized, AccessDenied));
        }
      } else if privacy == Friends {
        var friendsList := service.friendsList(viewer);
        if event.ownerId !in friendsList {
          return Err(HttpError(StatusUnauthorized, AccessDenied));
        }
      } else if privacy == FriendsOfFriends {
        var friendsList := service.fofList(viewer);
        if event.ownerId !in friendsList {
          return Err(HttpError(StatusUnauthorized, AccessDenied));
        }
      }
      r := Ok(StatusOk, Some(event));
    }

    method Remove(validation: Validation, id: EventId, caller: UserId) returns (r: Response)
      requires Valid()
      modifies this
      ensures Valid() && nextId == old(nextId)
      ensures (r, events) == RemoveOutcome(old(events), validation, id, caller)
    {
      if validation.Failed? {
        return Err(HttpError(StatusUnprocessable, InvalidInput));
      }
      if !(id in events && events[id].ownerId == caller) {
        return Err(HttpError(StatusConflict, EventNotFound));
      }
      events := events - {id};
      r := Ok(StatusOk, None);
    }
  }
}
