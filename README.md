# Event controller model

A Dafny model of the event controller of a small social-networking backend
(`backend/controllers/eventController.ts`). It models three request handlers:

- **upsert** creates an event (POST) or overwrites one (PUT). The caller becomes
  the owner. A create makes the caller the only participant. The start time
  arrives in seconds and is stored in milliseconds. An optional photo is uploaded
  before anything is written.
- **get** looks an event up by id. It then applies the privacy switch:
  - `only-me`: only the owner may read it.
  - `friends`: the owner must be in the viewer's friends list.
  - `friends-of-friends`: the owner must be in the viewer's friends-of-friends list.
  - any other value matches no case and the event is returned.
- **remove** deletes an event only when its id and its owner both match the caller.

The event table is the class `EventStore.Store`: a `map<EventId, Event>` plus the
auto-increment counter. It has one method per handler. Next to each method is a
pure function stating the response the handler sends and the table it leaves
behind: `UpsertOutcome`, `GetResponse` and `RemoveOutcome`. The lemmas in
`StoreProperties` are proved about those functions. The privacy switch is the
pure function `Visibility.CanView`.

Files:
- `events.dfy`: records, validation verdicts, errors and responses.
- `visibility.dfy`: the privacy switch.
- `event_store.dfy`: the store and its handlers.
- `store_properties.dfy`: properties of single handlers and of handler sequences.

Collaborators become inputs:
- The friend service's two list generators are an argument, `FriendService`.
  It holds two functions from a viewer to a sequence of user ids. Nothing is
  assumed about what they return.
- The photo upload's outcome is an argument, `UploadResult`. It holds a URL or
  a failure reason, and is used only when a photo was supplied.
- The request-validation chains become a `Validation` argument: passed, or
  failed with the serialised error details.
- The authenticated caller id is an argument, as is the HTTP method.

Three behaviours of the code are easy to miss:
- The `friends` and `friends-of-friends` branches do not let the owner in
  automatically (`FriendsHasNoOwnerShortcut`, `FriendsOfFriendsHasNoOwnerShortcut`).
- A privacy value that matches no case is let through (`UnmatchedPrivacyFallsThrough`).
- An update does not check who owned the event before (`UpdateTakesOwnership`).

## Model

| member | source | states |
|---|---|---|
| `Visibility.CanView` | backend/controllers/eventController.ts:125-149 | a refusal comes only from one of the three recognised privacy values; every grant under `only-me`, `friends` or `friends-of-friends` is backed by that case's test (viewer is the owner, or the owner is in the friends list or in the friends-of-friends list) |
| `EventStore.BuildDraft` | backend/controllers/eventController.ts:55-68 | the caller is written as the owner; the stored start time is a whole number of milliseconds that divides back to the request's time in seconds; the photo URL is the one given |
| `EventStore.Overwrite` | backend/controllers/eventController.ts:85-88 | an update keeps the row's id and participants, sets the owner; a coordinate, remark or photo URL the row already has is never cleared |
| `EventStore.PhotoSupplied` | backend/controllers/eventController.ts:46 | a photo counts as supplied exactly when the field is present and non-empty: an absent key and an empty string are both falsy (that neither is then uploaded or written is stated by `UploaderUnusedWithoutPhoto`, `CreateInsertsOwnedRecord` and `UpdateOverwritesRecord`) |
| `EventStore.NewRecord` | backend/controllers/eventController.ts:74-79 | the inserted row has the given fresh id, the draft's owner, start time, coordinates, remarks and photo URL, and the caller as its only participant |
| `EventStore.Merge` | backend/controllers/eventController.ts:85-88 | an update writes a key the request gives and keeps the stored value for a key it leaves out, so it never clears a value |
| `EventStore.OwnedByIsRowQuery` | backend/controllers/eventController.ts:170 | under the store invariant, the map lookup by key and owner agrees with the query on the rows' `id` and `ownerId` columns: it succeeds exactly when some stored row has both that id and the caller as owner |
| `EventStore.UpsertOutcome` | backend/controllers/eventController.ts:26-95 | a failed upsert writes nothing; every success is a 201; a returned row is stored and owned by the caller; an upsert never deletes a row; only a create adds a key (the counter's) and advances the counter |
| `EventStore.GetResponse` | backend/controllers/eventController.ts:101-152 | a failed validation is a 422 "Invalid input" before any lookup; a success returns the stored row unchanged; a 401 is only issued for an existing event that the privacy switch refuses; the owner of an `only-me` event always reads it |
| `EventStore.RemoveOutcome` | backend/controllers/eventController.ts:158-181 | a failed validation is a 422 "Invalid input" that deletes nothing; success exactly when validation passed and the id is owned by the caller; success removes exactly that key; failure leaves the table; no row is ever added or altered |
| `Visibility.OnlyMeAccess` | backend/controllers/eventController.ts:127-131 | `only-me` is refused exactly when the viewer is not the owner; the owner always gets through, whatever the friend service returns |
| `Visibility.FriendsAccess` | backend/controllers/eventController.ts:133-139 | `friends` is granted exactly when the owner id is in the viewer's friends list |
| `Visibility.FriendsOfFriendsAccess` | backend/controllers/eventController.ts:141-148 | `friends-of-friends` is granted exactly when the owner id is in the viewer's friends-of-friends list |
| `Visibility.FriendsOfFriendsIgnoresFriendsList` | backend/controllers/eventController.ts:141-148 | the `friends-of-friends` decision depends only on the friends-of-friends list; the direct-friends list is not consulted |
| `Visibility.FriendsIgnoresFriendsOfFriendsList` | backend/controllers/eventController.ts:133-139 | the `friends` decision depends only on the direct-friends list |
| `Visibility.UnmatchedPrivacyFallsThrough` | backend/controllers/eventController.ts:125-151 | a privacy value matching none of the three cases lets every viewer through, because the switch has no default branch |
| `Visibility.FriendsHasNoOwnerShortcut` | backend/controllers/eventController.ts:133-139 | for some friend service, the owner is refused their own `friends` event |
| `Visibility.FriendsOfFriendsHasNoOwnerShortcut` | backend/controllers/eventController.ts:141-148 | for some friend service, the owner is refused their own `friends-of-friends` event |
| `Visibility.DirectFriendNotEnoughForFriendsOfFriends` | backend/controllers/eventController.ts:141-148 | a viewer whose friends list holds the owner can still be refused a `friends-of-friends` event |
| `Visibility.UnrelatedViewerRefused` | backend/controllers/eventController.ts:126-149 | a viewer who is not the owner and is in neither list is refused under all three recognised privacy values |
| `EventStore.UpsertPreservesInvariant` | backend/controllers/eventController.ts:70-88 | create and update keep every row stored under its own id, with every id below the auto-increment counter |
| `EventStore.Store.Upsert` | backend/controllers/eventController.ts:26-95 | the response and the new table are exactly those of `UpsertOutcome`, and the store invariant is kept |
| `EventStore.Store.Get` | backend/controllers/eventController.ts:101-152 | the response is exactly `GetResponse`: validation, then lookup, then the privacy switch; nothing changes |
| `EventStore.Store.Remove` | backend/controllers/eventController.ts:158-181 | the response and the new table are exactly those of `RemoveOutcome`; the counter and the invariant are kept |
| `StoreProperties.UpsertRejectsInvalid` | backend/controllers/eventController.ts:27-30 | a request failing validation is a 422 carrying the error details, and the table and counter are unchanged |
| `StoreProperties.GetRejectsInvalid` | backend/controllers/eventController.ts:102-105 | the read handler answers a failed validation with 422 "Invalid input" for every table, viewer and friend service |
| `StoreProperties.RemoveRejectsInvalid` | backend/controllers/eventController.ts:159-162 | the remove handler answers a failed validation with 422 "Invalid input" and leaves the table unchanged |
| `StoreProperties.UploadFailureAborts` | backend/controllers/eventController.ts:45-53 | a failed photo upload is a 500 with the uploader's error and writes nothing, for every method and even for a PUT without an id |
| `StoreProperties.UploaderUnusedWithoutPhoto` | backend/controllers/eventController.ts:43-53 | with no photo (absent or empty), the upsert's whole outcome does not depend on the uploader |
| `StoreProperties.CreateInsertsOwnedRecord` | backend/controllers/eventController.ts:55-80 | POST inserts one row, under a fresh id. The caller is its owner and only participant. `startsAt` is `time * 1000`. Every field equals the request's. The photo URL is present exactly when a photo was supplied. The response carries the row, no other row changes, and the counter advances |
| `StoreProperties.UpdateWithoutIdRejected` | backend/controllers/eventController.ts:81-84 | a PUT without an id is a 422 "Invalid input" and writes nothing |
| `StoreProperties.UpdateOfMissingIdFails` | backend/controllers/eventController.ts:85-92 | a PUT whose id is not in the table fails in the storage layer and writes nothing |
| `StoreProperties.UpdateOverwritesRecord` | backend/controllers/eventController.ts:55-88 | a PUT of an existing id overwrites the fields and makes the caller the owner, with no check of the previous owner. Id and participants are kept. Coordinates, remarks and photo URL the request leaves out keep their old values. No other row changes |
| `StoreProperties.OtherMethodWritesNothing` | backend/controllers/eventController.ts:70-94 | a method other than POST or PUT falls through the switch: 201 with no event, nothing written |
| `StoreProperties.UpdateIsIdempotent` | backend/controllers/eventController.ts:81-88 | repeating the same update, with the same upload result, leaves the table and the response as the first one did |
| `StoreProperties.MissingEventNotFound` | backend/controllers/eventController.ts:110-122 | a missing id is a 409 "Event not found" for every viewer and every friend service, so no friend list is consulted |
| `StoreProperties.GetFollowsPrivacy` | backend/controllers/eventController.ts:124-151 | an existing event is returned exactly when the privacy switch lets the viewer through; otherwise the response is a 401 "Access denied for this event" |
| `StoreProperties.RemoveDeletesOnlyOwnedRecord` | backend/controllers/eventController.ts:167-180 | remove succeeds exactly when the id exists and is owned by the caller. Success deletes that key and leaves every other row as it was. Anything else is a 409 that changes nothing |
| `StoreProperties.RemovePreservesInvariant` | backend/controllers/eventController.ts:175 | deleting a row keeps the store invariant |
| `StoreProperties.CreateThenRemoveRestores` | backend/controllers/eventController.ts:73-80 | removing, by its creator, the event just created succeeds and gives back the table as it was before the create |
| `StoreProperties.RemoveTwiceConflicts` | backend/controllers/eventController.ts:170-177 | after a successful remove, the same remove is a 409 that changes nothing, so there is no double delete |
| `StoreProperties.RemovedEventNotFound` | backend/controllers/eventController.ts:111-122 | after a successful remove, any viewer reading that id gets a 409 |
| `StoreProperties.UpdateTakesOwnership` | backend/controllers/eventController.ts:81-88 | a non-owner's update succeeds and takes the event over: the previous owner's remove is then a 409, and the caller's succeeds |
| `StoreProperties.CreatorReadsOnlyMeEvent` | backend/controllers/eventController.ts:127-131 | after creating an `only-me` event, its creator reads back the created row and every other viewer gets a 401 |
| `StoreProperties.CreatorReadsFriendsEvent` | backend/controllers/eventController.ts:133-139 | the creator of a `friends` event can read it only if the friend service lists the creator among their own friends |

## Left out

- The friend service (`generateFriendsList`, `generateFOFList`) is not part of this model. It is an uninterpreted pair of functions. A generator that throws, or a `friends-of-friends` list with any particular content, is not modelled.
- The database client and its error mapper are replaced by the in-memory map. A failed update of a missing id is `DatabaseError`, and the status the mapper assigns is not modelled. Other storage failures are not modelled. These include a create or update whose caller is not an existing user, and a start time outside the range of a JavaScript `Date`.
- The validation chains (`validateUpsert`, `validateGet`, `validateRemove`) are reduced to their verdict. Which inputs they accept is not modelled. The lists of allowed categories and privacy values live in a shared-types file that is not part of this model, so `category` and `privacy` are free strings.
- The 422 message of upsert contains the JSON serialisation of the validation errors. It is modelled as the prefix followed by an opaque details string.
- Photo upload to object storage and the random key it uses are external I/O and randomness. Only the outcome, a URL or a failure reason, is modelled. The error text is the reason as given.
- Coordinates are floating-point columns that no code inspects. They are carried as reals without float rounding.
- The relations the read handler includes (`comments`, the `owner` user object) are not modelled: the record `get` returns carries the owner id and the participant set only. The 201 response of create and update is the stored record, participants included, whereas the storage client's `create`/`update` (lines 74 and 85, without an `include`) return the row without its participants.
- Concurrency between requests is left out. The record found by remove's lookup is assumed to still exist at the delete.
- `backend/routes/api.ts` and the frontend files are routing and UI state with no event logic, and are not modelled.
