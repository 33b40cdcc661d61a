/** The stored shapes of lib/models/User.ts and the server session the
    routes consult. Dates are integer milliseconds. */
module Records {

  import opened Wrappers

  /** A database object id, kept abstract as a number. */
  type ObjectId = nat

  datatype Role = User | Assistant

  /** One chat message of an itinerary's history. */
  datatype Message = Message(role: Role, content: string, timestamp: int)

  /** An itinerary document. The fields the save route copies from the
      request body may be absent there, so they are optional here. */
  datatype ItineraryRecord = ItineraryRecord(
    userId: ObjectId,
    title: string,
    destination: string,
    startDate: Option<string>,
    endDate: Option<string>,
    budget: Option<string>,
    travelers: Option<string>,
    interests: Option<string>,
    accommodation: Option<string>,
    pace: Option<string>,
    additionalNotes: Option<string>,
    content: string,
    chatHistory: seq<Message>,
    createdAt: int,
    updatedAt: int)

  /** A document as the collection holds it, with its `_id`. */
  datatype StoredItinerary = StoredItinerary(id: ObjectId, record: ItineraryRecord)

  datatype SessionUser = SessionUser(id: ObjectId)

  /** What getServerSession yields when there is a session. */
  datatype Session = Session(user: Option<SessionUser>)

  /** What `await getServerSession(...)` gives a route: the session or its
      absence, or a failure, which lands in the route's catch. */
  datatype SessionLookup = LookupFailed | Found(session: Option<Session>)

  /** The guard both itinerary routes open with: a session with a user, or
      nobody. */
  function AuthorizedUser(session: Option<Session>): (owner: Option<ObjectId>)
    ensures owner.Some? <==> session.Some? && session.value.user.Some?
    ensures owner.Some? ==> owner.value == session.value.user.value.id
  {
    match session
    case None => None
    case Some(s) =>
      match s.user
      case None => None
      case Some(u) => Some(u.id)
  }
}
