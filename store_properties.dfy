/** What the three handlers promise, one call at a time and in sequence. */
module StoreProperties {
  import opened Events
  import opened Visibility
  import opened EventStore

  /** The request gets past validation and the photo upload (no photo, or an
      upload that succeeded). */
  predicate ReachesPersistence(req: UpsertRequest, upload: UploadResult)
  {
    req.validation.Passed? && !(PhotoSupplied(req.photo) && upload.UploadFailed?)
  }

  // ---------------------------------------------------------------------------
  // Upsert

  /** A request that fails validation is a 422 carrying the validation
      details, and the store is unchanged. */
  lemma UpsertRejectsInvalid(events: map<EventId, Event>, nextId: EventId, caller: UserId,
                             req: UpsertRequest, upload: UploadResult)
    requires req.validation.Failed?
    ensures UpsertOutcome(events, nextId, caller, req, upload) ==
            Outcome(Err(HttpError(StatusUnprocessable, InvalidInput + " " + req.validation.details)), events, nextId)
  {
  }

  /** The read handler answers a failed validation with 422 "Invalid input",
      whatever the table, the viewer and the friend service. */
  lemma GetRejectsInvalid(events: map<EventId, Event>, details: string, id: EventId,
                          viewer: UserId, service: FriendService)
    ensures GetResponse(events, Failed(details), id, viewer, service) ==
            Err(HttpError(StatusUnprocessable, InvalidInput))
  {
  }

  /** The remove handler answers a failed validation with 422 "Invalid input"
      and deletes nothing. */
  lemma RemoveRejectsInvalid(events: map<EventId, Event>, details: string, id: EventId, caller: UserId)
    ensures RemoveOutcome(events, Failed(details), id, caller) ==
            (Err(HttpError(StatusUnprocessable, InvalidInput)), events)
  {
  }

  /** A failed photo upload is a 500 and nothing is written, whatever the
      HTTP method and whether or not an id was given. */
  lemma UploadFailureAborts(events: map<EventId, Event>, nextId: EventId, caller: UserId,
                            req: UpsertRequest, reason: string)
    requires req.validation.Passed? && PhotoSupplied(req.photo)
    ensures UpsertOutcome(events, nextId, caller, req, UploadFailed(reason)) ==
            Outcome(Err(HttpError(StatusServerError, UploadErrorPrefix + reason)), events, nextId)
  {
  }

  /** Without a photo the uploader is not called: its result does not matter. */
  lemma UploaderUnusedWithoutPhoto(events: map<EventId, Event>, nextId: EventId, caller: UserId,
                                   req: UpsertRequest, u1: UploadResult, u2: UploadResult)
    requires !PhotoSupplied(req.photo)
    ensures UpsertOutcome(events, nextId, caller, req, u1) == UpsertOutcome(events, nextId, caller, req, u2)
  {
  }

  /** Create inserts one row under a fresh id, owned by the caller, with the
      caller as its only participant, the start time in milliseconds, and a
      photo URL exactly when a photo was supplied; no other row changes. */
  lemma CreateInsertsOwnedRecord(events: map<EventId, Event>, nextId: EventId, caller: UserId,
                                 req: UpsertRequest, upload: UploadResult)
    requires StoreInvariant(events, nextId)
    requires req.httpMethod.Post? && ReachesPersistence(req, upload)
    ensures var o := UpsertOutcome(events, nextId, caller, req, upload);
            && nextId !in events
            && o.nextId == nextId + 1
            && nextId in o.events
            && o.response == Ok(StatusCreated, Some(o.events[nextId]))
            && o.events == events[nextId := o.events[nextId]]
            && var e := o.events[nextId];
            && e.id == nextId
            && e.ownerId == caller
            && e.participants == {caller}
            && e.startsAt == req.time * 1000
            && e.name == req.name && e.category == req.category && e.duration == req.duration
            && e.location == req.location && e.privacy == req.privacy
            && e.maxParticipants == req.maxParticipants
            && e.coordinateLat == req.coordinateLat && e.coordinateLon == req.coordinateLon
            && e.remarks == req.remarks
            && (e.photoUrl.Some? <==> PhotoSupplied(req.photo))
            && (PhotoSupplied(req.photo) ==> e.photoUrl == Some(upload.url))
  {
  }

  /** An update with no id is a 422 and changes nothing (the upload, if any,
      has already happened). */
  lemma UpdateWithoutIdRejected(events: map<EventId, Event>, nextId: EventId, caller: UserId,
                                req: UpsertRequest, upload: UploadResult)
    requires req.httpMethod.Put? && req.id.None? && ReachesPersistence(req, upload)
    ensures UpsertOutcome(events, nextId, caller, req, upload) ==
            Outcome(Err(HttpError(StatusUnprocessable, InvalidInput)), events, nextId)
  {
  }

  /** An update of an id the store does not hold fails in the storage layer
      and changes nothing. */
  lemma UpdateOfMissingIdFails(events: map<EventId, Event>, nextId: EventId, caller: UserId,
                               req: UpsertRequest, upload: UploadResult)
    requires req.httpMethod.Put? && req.id.Some? && req.id.value !in events
    requires ReachesPersistence(req, upload)
    ensures UpsertOutcome(events, nextId, caller, req, upload) == Outcome(Err(DatabaseError), events, nextId)
  {
  }

  /** An update of an existing row overwrites its fields and makes the caller
      its owner, whoever owned it before; the id and the participants stay,
      optional fields the request leaves out keep their old values, and no
      other row changes. */
  lemma UpdateOverwritesRecord(events: map<EventId, Event>, nextId: EventId, caller: UserId,
                               req: UpsertRequest, upload: UploadResult)
    requires req.httpMethod.Put? && req.id.Some? && req.id.value in events
    requires ReachesPersistence(req, upload)
    ensures var k := req.id.value;
            var before := events[k];
            var o := UpsertOutcome(events, nextId, caller, req, upload);
            && o.nextId == nextId
            && k in o.events
            && o.response == Ok(StatusCreated, Some(o.events[k]))
            && o.events == events[k := o.events[k]]
            && var e := o.events[k];
            && e.id == before.id
            && e.ownerId == caller
            && e.participants == before.participants
            && e.startsAt == req.time * 1000
            && e.name == req.name && e.category == req.category && e.duration == req.duration
            && e.location == req.location && e.privacy == req.privacy
            && e.maxParticipants == req.maxParticipants
            && e.coordinateLat == (if req.coordinateLat.Some? then req.coordinateLat else before.coordinateLat)
            && e.coordinateLon == (if req.coordinateLon.Some? then req.coordinateLon else before.coordinateLon)
            && e.remarks == (if req.remarks.Some? then req.remarks else before.remarks)
            && e.photoUrl == (if PhotoSupplied(req.photo) then Some(upload.url) else before.photoUrl)
  {
  }

  /** A method other than POST or PUT still answers 201, with no event, and
      writes nothing. */
  lemma OtherMethodWritesNothing(events: map<EventId, Event>, nextId: EventId, caller: UserId,
                                 req: UpsertRequest, upload: UploadResult)
    requires req.httpMethod.OtherMethod? && ReachesPersistence(req, upload)
    ensures UpsertOutcome(events, nextId, caller, req, upload) == Outcome(Ok(StatusCreated, None), events, nextId)
  {
  }

  /** Repeating an update with the same request and upload result leaves the
      store as the first update left it. */
  lemma UpdateIsIdempotent(events: map<EventId, Event>, nextId: EventId, caller: UserId,
                           req: UpsertRequest, upload: UploadResult)
    requires req.httpMethod.Put?
    ensures var o1 := UpsertOutcome(events, nextId, caller, req, upload);
            var o2 := UpsertOutcome(o1.events, o1.nextId, caller, req, upload);
            o2.events == o1.events && o2.nextId == o1.nextId && o2.response == o1.response
  {
  }

  // ---------------------------------------------------------------------------
  // Get

  /** A missing event is a 409 for every viewer and every friend service: no
      friend list takes part. */
  lemma MissingEventNotFound(events: map<EventId, Event>, id: EventId, viewer: UserId, service: FriendService)
    requires id !in events
    ensures GetResponse(events, Passed, id, viewer, service) == Err(HttpError(StatusConflict, EventNotFound))
  {
  }

  /** An existing event is returned exactly when the privacy switch lets the
      viewer through, and is a 401 otherwise. */
  lemma GetFollowsPrivacy(events: map<EventId, Event>, id: EventId, viewer: UserId, service: FriendService)
    requires id in events
    ensures var e := events[id];
            GetResponse(events, Passed, id, viewer, service) ==
            if CanView(e.privacy, e.ownerId, viewer, service) then Ok(StatusOk, Some(e))
            else Err(HttpError(StatusUnauthorized, AccessDenied))
  {
  }

  // ---------------------------------------------------------------------------
  // Remove

  /** Remove succeeds exactly when a row with this id is owned by the caller;
      it then deletes that row and no other, and otherwise is a 409 that
      changes nothing. */
  lemma RemoveDeletesOnlyOwnedRecord(events: map<EventId, Event>, id: EventId, caller: UserId)
    ensures var (r, after) := RemoveOutcome(events, Passed, id, caller);
            && (r.Ok? <==> id in events && events[id].ownerId == caller)
            && (r.Ok? ==> r == Ok(StatusOk, None) && after.Keys == events.Keys - {id})
            && (!r.Ok? ==> r == Err(HttpError(StatusConflict, EventNotFound)) && after == events)
            && forall k :: k in after ==> k in events && after[k] == events[k]
  {
  }

  /** Remove keeps the store invariant. */
  lemma RemovePreservesInvariant(events: map<EventId, Event>, nextId: EventId, validation: Validation,
                                 id: EventId, caller: UserId)
    requires StoreInvariant(events, nextId)
    ensures StoreInvariant(RemoveOutcome(events, validation, id, caller).1, nextId)
  {
  }

  // ---------------------------------------------------------------------------
  // Sequences of requests

  /** Removing the event one has just created restores the store. */
  lemma CreateThenRemoveRestores(events: map<EventId, Event>, nextId: EventId, caller: UserId,
                                 req: UpsertRequest, upload: UploadResult)
    requires StoreInvariant(events, nextId)
    requires req.httpMethod.Post? && ReachesPersistence(req, upload)
    ensures var o := UpsertOutcome(events, nextId, caller, req, upload);
            RemoveOutcome(o.events, Passed, nextId, caller) == (Ok(StatusOk, None), events)
  {
    var o := UpsertOutcome(events, nextId, caller, req, upload);
    assert nextId !in events;
    assert o.events - {nextId} == events;
  }

  /** A second remove of the same event is a 409: there is no double delete. */
  lemma RemoveTwiceConflicts(events: map<EventId, Event>, id: EventId, caller: UserId)
    requires RemoveOutcome(events, Passed, id, caller).0.Ok?
    ensures var after := RemoveOutcome(events, Passed, id, caller).1;
            RemoveOutcome(after, Passed, id, caller) == (Err(HttpError(StatusConflict, EventNotFound)), after)
  {
  }

  /** Once removed, an event is not found by any viewer. */
  lemma RemovedEventNotFound(events: map<EventId, Event>, id: EventId, caller: UserId,
                             viewer: UserId, service: FriendService)
    requires RemoveOutcome(events, Passed, id, caller).0.Ok?
    ensures var after := RemoveOutcome(events, Passed, id, caller).1;
            GetResponse(after, Passed, id, viewer, service) == Err(HttpError(StatusConflict, EventNotFound))
  {
  }

  /** An update by someone other than the owner succeeds and takes the event
      over: afterwards the previous owner can no longer remove it, and the
      caller can. */
  lemma UpdateTakesOwnership(events: map<EventId, Event>, nextId: EventId, caller: UserId,
                             req: UpsertRequest, upload: UploadResult)
    requires req.httpMethod.Put? && req.id.Some? && req.id.value in events
    requires ReachesPersistence(req, upload)
    requires events[req.id.value].ownerId != caller
    ensures var k := req.id.value;
            var o := UpsertOutcome(events, nextId, caller, req, upload);
            && o.response.Ok?
            && RemoveOutcome(o.events, Passed, k, events[k].ownerId) == (Err(HttpError(StatusConflict, EventNotFound)), o.events)
            && RemoveOutcome(o.events, Passed, k, caller) == (Ok(StatusOk, None), o.events - {k})
  {
  }

  /** The creator of an `only-me` event reads it back; everyone else is refused. */
  lemma CreatorReadsOnlyMeEvent(events: map<EventId, Event>, nextId: EventId, caller: UserId,
                                req: UpsertRequest, upload: UploadResult,
                                viewer: UserId, service: FriendService)
    requires StoreInvariant(events, nextId)
    requires req.httpMethod.Post? && ReachesPersistence(req, upload) && req.privacy == OnlyMe
    ensures var o := UpsertOutcome(events, nextId, caller, req, upload);
            GetResponse(o.events, Passed, nextId, viewer, service) ==
            if viewer == caller then o.response.(status := StatusOk)
            else Err(HttpError(StatusUnauthorized, AccessDenied))
  {
  }

  /** The creator of a `friends` event reads it back only if the friend
      service lists them among their own friends. */
  lemma CreatorReadsFriendsEvent(events: map<EventId, Event>, nextId: EventId, caller: UserId,
                                 req: UpsertRequest, upload: UploadResult, service: FriendService)
    requires StoreInvariant(events, nextId)
    requires req.httpMethod.Post? && ReachesPersistence(req, upload) && req.privacy == Friends
    ensures var o := UpsertOutcome(events, nextId, caller, req, upload);
            GetResponse(o.events, Passed, nextId, caller, service).Ok? <==> caller in service.friendsList(caller)
  {
  }
}
