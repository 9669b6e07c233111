/** Values the event controller works with: the persisted event row, the
    outcome of request validation, and the HTTP outcome a handler produces
    (a response it sends, or an error it passes on to the error middleware). */
module Events {

  type UserId = int
  type EventId = int

  datatype Option<T> = None | Some(value: T)

  /** A persisted event row together with its participant relation.
      `startsAt` is in milliseconds since the epoch. The coordinates are
      floating-point columns that no code inspects; they are carried as reals. */
  datatype Event = Event(
    id: EventId,
    ownerId: UserId,
    name: string,
    category: string,
    startsAt: int,
    duration: int,
    location: string,
    privacy: string,
    maxParticipants: int,
    coordinateLat: Option<real>,
    coordinateLon: Option<real>,
    remarks: Option<string>,
    photoUrl: Option<string>,
    participants: set<UserId>)

  /** The verdict of the validation chain that runs before a handler;
      `details` is the serialised list of validation errors. */
  datatype Validation = Passed | Failed(details: string)

  /** An error a handler hands to the error middleware. `DatabaseError` is
      whatever the storage layer's error mapper makes of a failed query. */
  datatype Error = HttpError(status: int, message: string) | DatabaseError

  /** What a handler does with the request: send a body with a status, or fail. */
  datatype Response = Ok(status: int, event: Option<Event>) | Err(error: Error)

  const StatusOk := 200
  const StatusCreated := 201
  const StatusUnauthorized := 401
  const StatusConflict := 409
  const StatusUnprocessable := 422
  const StatusServerError := 500

  const InvalidInput := "Invalid input"
  const EventNotFound := "Event not found"
  const AccessDenied := "Access denied for this event"
  const UploadErrorPrefix := "AWS Error "
}
