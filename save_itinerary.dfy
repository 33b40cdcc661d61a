/** POST of app/api/itineraries/save/route.ts: checks the caller and the
    body, then inserts a new itinerary record built from the body. */
module SaveItinerary {

  import opened Wrappers
  import opened Records

  /** The request body. The eleven properties the route destructures are
      None when absent. The body may also carry properties that the route
      sets itself on the record (an owner, a chat, time stamps); the route
      never reads them. */
  datatype SaveBody = SaveBody(
    title: Option<string>,
    destination: Option<string>,
    startDate: Option<string>,
    endDate: Option<string>,
    budget: Option<string>,
    travelers: Option<string>,
    interests: Option<string>,
    accommodation: Option<string>,
    pace: Option<string>,
    additionalNotes: Option<string>,
    content: Option<string>,
    userId: Option<ObjectId>,
    chatHistory: Option<seq<Message>>,
    createdAt: Option<int>,
    updatedAt: Option<int>)

  /** How the database step ends: getDatabase fails, insertOne fails, or
      insertOne gives back the new id. */
  datatype InsertResult = DatabaseUnreachable | InsertFailed | Inserted(insertedId: ObjectId)

  datatype SaveResponse =
    | SaveError(status: int, error: string)
    | Saved(status: int, message: string, itineraryId: ObjectId)

  /** The response, and the record handed to insertOne if the route got
      that far. */
  datatype SaveOutcome = SaveOutcome(response: SaveResponse, insertAttempt: Option<ItineraryRecord>)

  /** JavaScript truthiness of a string property. */
  predicate Truthy(v: Option<string>) {
    v.Some? && v.value != ""
  }

  /** The optional descriptive fields, as the body gives them and as a
      record keeps them. */
  datatype Details = Details(
    startDate: Option<string>, endDate: Option<string>, budget: Option<string>,
    travelers: Option<string>, interests: Option<string>, accommodation: Option<string>,
    pace: Option<string>, additionalNotes: Option<string>)

  function BodyDetails(b: SaveBody): Details {
    Details(b.startDate, b.endDate, b.budget, b.travelers, b.interests,
            b.accommodation, b.pace, b.additionalNotes)
  }

  function RecordDetails(r: ItineraryRecord): Details {
    Details(r.startDate, r.endDate, r.budget, r.travelers, r.interests,
            r.accommodation, r.pace, r.additionalNotes)
  }

  function DefaultTitle(destination: string): string {
    destination + " Trip"
  }

  /** The object literal of the route, for a body that passed validation.
      `createdAt` and `updatedAt` are the two `new Date()` reads, in order.
      The record belongs to the session's user whatever the body says,
      starts with no chat, carries the route's own clock reads, copies every
      descriptive field and the destination and content unchanged, and
      always has a non-empty title: the body's title when truthy, otherwise
      "<destination> Trip". */
  function BuildRecord(owner: ObjectId, body: SaveBody, createdAt: int, updatedAt: int): (r: ItineraryRecord)
    requires Truthy(body.destination) && Truthy(body.content)
    ensures r.userId == owner
    ensures r.chatHistory == []
    ensures r.createdAt == createdAt && r.updatedAt == updatedAt
    ensures RecordDetails(r) == BodyDetails(body)
    ensures Some(r.destination) == body.destination && Some(r.content) == body.content
    ensures r.title != ""
    ensures Truthy(body.title) ==> Some(r.title) == body.title
    ensures !Truthy(body.title) ==> r.title == body.destination.value + " Trip"
  {
    ItineraryRecord(
      owner,
      if Truthy(body.title) then body.title.value else DefaultTitle(body.destination.value),
      body.destination.value,
      body.startDate, body.endDate, body.budget, body.travelers, body.interests,
      body.accommodation, body.pace, body.additionalNotes,
      body.content.value,
      [], createdAt, updatedAt)
  }

  /** The two bodies agree on the eleven destructured properties. */
  predicate SameSavedFields(b1: SaveBody, b2: SaveBody) {
    b1.title == b2.title && b1.destination == b2.destination && b1.content == b2.content &&
    BodyDetails(b1) == BodyDetails(b2)
  }

  /** Two bodies that differ only in what the route does not destructure
      (an owner, a chat or time stamps of their own) give one record: a
      client cannot choose the owner, the chat or the dates of what it saves. */
  lemma BuildRecordDependsOnFieldsOnly(owner: ObjectId, b1: SaveBody, b2: SaveBody, createdAt: int, updatedAt: int)
    requires Truthy(b1.destination) && Truthy(b1.content)
    requires SameSavedFields(b1, b2)
    ensures BuildRecord(owner, b1, createdAt, updatedAt) == BuildRecord(owner, b2, createdAt, updatedAt)
  {
  }

  /** The route. `lookup` is the session lookup, which may fail; `body` is
      None where `req.json()` throws; the database's answer and the two clock
      reads are parameters. The order of the checks: a failed lookup gives
      500; no user gives 401 before the body is read; an unreadable body
      gives 500; a falsy destination or content gives 400; in none of these
      is anything inserted. Only a valid body reaches the database; when it
      is reachable, insertOne gets the record built from the body, and the
      answer is 201 with the new id exactly when the insert succeeds. Every
      other path is the catch's 500. */
  function Save(lookup: SessionLookup, body: Option<SaveBody>, createdAt: int, updatedAt: int, insert: InsertResult): (out: SaveOutcome)
    ensures lookup.LookupFailed? ==> out == SaveOutcome(SaveError(500, "Failed to save itinerary"), None)
    ensures out.response.status == 401 <==> lookup.Found? && AuthorizedUser(lookup.session).None?
    ensures out.response.status == 400 <==>
      lookup.Found? && AuthorizedUser(lookup.session).Some? && body.Some? &&
      !(Truthy(body.value.destination) && Truthy(body.value.content))
    ensures out.insertAttempt.Some? <==>
      lookup.Found? && AuthorizedUser(lookup.session).Some? && body.Some? &&
      Truthy(body.value.destination) && Truthy(body.value.content) && !insert.DatabaseUnreachable?
    ensures out.insertAttempt.Some? ==>
      out.insertAttempt.value == BuildRecord(AuthorizedUser(lookup.session).value, body.value, createdAt, updatedAt)
    ensures out.response.status == 201 <==> out.insertAttempt.Some? && insert.Inserted?
    ensures out.response.status == 201 ==> out.response == Saved(201, "Itinerary saved successfully", insert.insertedId)
    ensures out.response.status == 500 <==>
      lookup.LookupFailed? ||
      (AuthorizedUser(lookup.session).Some? &&
       (body.None? ||
        (Truthy(body.value.destination) && Truthy(body.value.content) && !insert.Inserted?)))
    ensures out.response.status == 500 ==> out.response == SaveError(500, "Failed to save itinerary")
    ensures out.response.status in {401, 400, 500, 201}
  {
    match lookup
    case LookupFailed => SaveOutcome(SaveError(500, "Failed to save itinerary"), None)
    case Found(session) =>
      match AuthorizedUser(session)
      case None => SaveOutcome(SaveError(401, "Unauthorized"), None)
      case Some(owner) =>
        match body
        case None => SaveOutcome(SaveError(500, "Failed to save itinerary"), None)
        case Some(b) =>
          if !Truthy(b.destination) || !Truthy(b.content) then
            SaveOutcome(SaveError(400, "Destination and content are required"), None)
          else
            match insert
            case DatabaseUnreachable => SaveOutcome(SaveError(500, "Failed to save itinerary"), None)
            case InsertFailed =>
              SaveOutcome(SaveError(500, "Failed to save itinerary"), Some(BuildRecord(owner, b, createdAt, updatedAt)))
            case Inserted(id) =>
              SaveOutcome(Saved(201, "Itinerary saved successfully", id), Some(BuildRecord(owner, b, createdAt, updatedAt)))
  }

  /** Whoever sends the request, a saved record is owned by the session's
      user, whatever owner the body names. */
  lemma SavedRecordOwnedBySession(lookup: SessionLookup, body: Option<SaveBody>, createdAt: int, updatedAt: int, insert: InsertResult)
    requires Save(lookup, body, createdAt, updatedAt, insert).insertAttempt.Some?
    ensures lookup.Found? && lookup.session.Some? && lookup.session.value.user.Some?
    ensures Save(lookup, body, createdAt, updatedAt, insert).insertAttempt.value.userId == lookup.session.value.user.value.id
    ensures Save(lookup, body, createdAt, updatedAt, insert).insertAttempt.value.chatHistory == []
  {
  }
}
