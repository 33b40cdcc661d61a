/** GET of app/api/itineraries/route.ts: the signed-in user's itineraries,
    newest first. */
module ListItineraries {

  import opened Wrappers
  import opened Records

  /** The database as the route sees it: the itinerary documents, or a
      failure anywhere in reaching or querying it. */
  datatype Database = Unreachable | Reachable(docs: seq<StoredItinerary>)

  datatype ListResponse =
    | ListError(status: int, error: string)
    | Listed(status: int, items: seq<StoredItinerary>)

  predicate OwnedBy(d: StoredItinerary, owner: ObjectId) {
    d.record.userId == owner
  }

  /** `find({userId})`: the owner's documents in collection order. Each of
      them is kept as often as it occurs and nothing else is. */
  function FindByOwner(docs: seq<StoredItinerary>, owner: ObjectId): (found: seq<StoredItinerary>)
    ensures forall i :: 0 <= i < |found| ==> OwnedBy(found[i], owner)
    ensures forall d :: OwnedBy(d, owner) ==> multiset(found)[d] == multiset(docs)[d]
    ensures multiset(found) <= multiset(docs)
    decreases |docs|
  {
    if docs == [] then []
    else
      var rest := FindByOwner(docs[1..], owner);
      assert docs == [docs[0]] + docs[1..];
      if OwnedBy(docs[0], owner) then [docs[0]] + rest else rest
  }

  /** Sorted by `createdAt`, newest first. */
  ghost predicate NewestFirst(s: seq<StoredItinerary>) {
    forall k, l :: 0 <= k < l < |s| ==> s[k].record.createdAt >= s[l].record.createdAt
  }

  method Swap(a: array<StoredItinerary>, i: int, j: int)
    requires 0 <= i < a.Length && 0 <= j < a.Length
    modifies a
    ensures a[i] == old(a[j]) && a[j] == old(a[i])
    ensures forall k :: 0 <= k < a.Length && k != i && k != j ==> a[k] == old(a[k])
    ensures multiset(a[..]) == multiset(old(a[..]))
  {
    a[i], a[j] := a[j], a[i];
  }

  /** `itineraries.sort((a, b) => b.createdAt - a.createdAt)` in place: an
      insertion sort by adjacent swaps. */
  method SortNewestFirst(a: array<StoredItinerary>)
    modifies a
    ensures NewestFirst(a[..])
    ensures multiset(a[..]) == multiset(old(a[..]))
  {
    var i := 0;
    while i < a.Length
      invariant 0 <= i <= a.Length
      invariant NewestFirst(a[..i])
      invariant multiset(a[..]) == multiset(old(a[..]))
    {
      var j := i;
      while j > 0 && a[j - 1].record.createdAt < a[j].record.createdAt
        invariant 0 <= j <= i
        invariant forall k, l :: 0 <= k < l <= i && l != j ==> a[k].record.createdAt >= a[l].record.createdAt
        invariant 0 < j < i ==> a[j - 1].record.createdAt >= a[j + 1].record.createdAt
        invariant multiset(a[..]) == multiset(old(a[..]))
      {
        Swap(a, j - 1, j);
        j := j - 1;
      }
      i := i + 1;
    }
  }

  /** The route: 500 when the session lookup fails, and then no query; 401
      without a signed-in user, and then no query either; 500 when the
      database fails; otherwise 200 with exactly the user's documents,
      newest first. */
  method ListItineraries(lookup: SessionLookup, db: Database) returns (response: ListResponse, queried: bool)
    ensures queried <==> lookup.Found? && AuthorizedUser(lookup.session).Some?
    ensures lookup.LookupFailed? ==> response == ListError(500, "Failed to fetch itineraries")
    ensures response.status == 401 <==> lookup.Found? && AuthorizedUser(lookup.session).None?
    ensures response.status == 401 ==> response == ListError(401, "Unauthorized")
    ensures response.status == 500 <==> lookup.LookupFailed? || (queried && db.Unreachable?)
    ensures response.status == 500 ==> response == ListError(500, "Failed to fetch itineraries")
    ensures response.status == 200 <==> response.Listed?
    ensures response.Listed? ==> queried && db.Reachable?
    ensures response.Listed? ==>
      && (forall i :: 0 <= i < |response.items| ==> OwnedBy(response.items[i], lookup.session.value.user.value.id))
      && NewestFirst(response.items)
      && multiset(response.items) == multiset(FindByOwner(db.docs, lookup.session.value.user.value.id))
  {
    if lookup.LookupFailed? {
      return ListError(500, "Failed to fetch itineraries"), false;
    }
    var owner := AuthorizedUser(lookup.session);
    if owner.None? {
      return ListError(401, "Unauthorized"), false;
    }
    queried := true;
    if db.Unreachable? {
      return ListError(500, "Failed to fetch itineraries"), true;
    }
    var found := FindByOwner(db.docs, owner.value);
    var itineraries := new StoredItinerary[|found|](i requires 0 <= i < |found| => found[i]);
    assert itineraries[..] == found;
    SortNewestFirst(itineraries);
    var items := itineraries[..];
    forall i | 0 <= i < |items|
      ensures OwnedBy(items[i], owner.value)
    {
      assert items[i] in multiset(found);
    }
    response := Listed(200, items);
  }
}
