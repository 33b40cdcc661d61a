/** The saved-itineraries page (app/my-itineraries/page.tsx): loading the
    list once the session is known, and deleting entries from it. */
module MyItineraries {

  import opened Wrappers

  /** The fields of a listed itinerary the page reads. */
  datatype ItinerarySummary = ItinerarySummary(
    id: string,
    title: string,
    destination: string,
    startDate: string,
    endDate: string,
    budget: string,
    travelers: string,
    createdAt: string)

  datatype SessionStatus = Loading | Unauthenticated | Authenticated

  /** What the list fetch ends in: a thrown error, a response that is not
      ok, or an ok response with its items. */
  datatype ListFetch = FetchThrew | FetchNotOk | FetchOk(items: seq<ItinerarySummary>)

  /** What the DELETE request ends in. */
  datatype DeleteResult = DeleteThrew | DeleteNotOk | DeleteOk

  /** `items.filter((i) => i._id !== id)`. */
  function RemoveById(items: seq<ItinerarySummary>, id: string): (r: seq<ItinerarySummary>)
    ensures forall i :: 0 <= i < |r| ==> r[i].id != id
    ensures |r| <= |items|
    decreases |items|
  {
    if items == [] then []
    else
      var rest := RemoveById(items[1..], id);
      if items[0].id != id then [items[0]] + rest else rest
  }

  /** The filter keeps every entry with another id as often as it occurs,
      and adds nothing. */
  lemma {:induction false} RemoveByIdCounts(items: seq<ItinerarySummary>, id: string)
    ensures forall x: ItinerarySummary :: x.id != id ==> multiset(RemoveById(items, id))[x] == multiset(items)[x]
    ensures multiset(RemoveById(items, id)) <= multiset(items)
    decreases |items|
  {
    if items != [] {
      RemoveByIdCounts(items[1..], id);
      assert items == [items[0]] + items[1..];
    }
  }

  /** The filter keeps the order of what it keeps: it distributes over
      concatenation. */
  lemma {:induction false} RemoveByIdAppend(a: seq<ItinerarySummary>, b: seq<ItinerarySummary>, id: string)
    ensures RemoveById(a + b, id) == RemoveById(a, id) + RemoveById(b, id)
    decreases |a|
  {
    if a != [] {
      assert (a + b)[0] == a[0] && (a + b)[1..] == a[1..] + b;
      RemoveByIdAppend(a[1..], b, id);
      var x, y := RemoveById(a[1..], id), RemoveById(b, id);
      assert [a[0]] + (x + y) == [a[0]] + x + y;
    } else {
      assert a + b == b;
    }
  }

  /** A list without the id is left as it is, so filtering twice is
      filtering once. */
  lemma {:induction false} RemoveAbsentId(items: seq<ItinerarySummary>, id: string)
    requires forall i :: 0 <= i < |items| ==> items[i].id != id
    ensures RemoveById(items, id) == items
    decreases |items|
  {
    if items != [] {
      RemoveAbsentId(items[1..], id);
      assert [items[0]] + items[1..] == items;
    }
  }

  lemma RemoveByIdIdempotent(items: seq<ItinerarySummary>, id: string)
    ensures RemoveById(RemoveById(items, id), id) == RemoveById(items, id)
  {
    RemoveAbsentId(RemoveById(items, id), id);
  }

  /** Removing two ids one after the other gives the same list in either
      order. */
  lemma {:induction false} RemoveByIdCommutes(items: seq<ItinerarySummary>, a: string, b: string)
    ensures RemoveById(RemoveById(items, a), b) == RemoveById(RemoveById(items, b), a)
    decreases |items|
  {
    if items != [] {
      RemoveByIdCommutes(items[1..], a, b);
    }
  }

  ghost predicate DistinctIds(items: seq<ItinerarySummary>) {
    forall i, j :: 0 <= i < j < |items| ==> items[i].id != items[j].id
  }

  /** With distinct ids a successful delete removes at most one entry, and
      exactly one when the id is listed. */
  lemma {:induction false} RemoveDistinct(items: seq<ItinerarySummary>, id: string)
    requires DistinctIds(items)
    ensures |RemoveById(items, id)| >= |items| - 1
    ensures (exists i :: 0 <= i < |items| && items[i].id == id) ==> |RemoveById(items, id)| == |items| - 1
    decreases |items|
  {
    if items != [] {
      RemoveDistinct(items[1..], id);
      if items[0].id == id {
        RemoveAbsentId(items[1..], id);
      } else if exists i :: 0 <= i < |items| && items[i].id == id {
        var i :| 0 <= i < |items| && items[i].id == id;
        assert items[1..][i - 1].id == id;
      }
    }
  }

  /** `disabled={deletingId === itinerary._id}` on each delete button. */
  predicate DeleteDisabled(deletingId: Option<string>, itemId: string) {
    deletingId == Some(itemId)
  }

  function DisabledButtons(items: seq<ItinerarySummary>, deletingId: Option<string>): set<int> {
    set i | 0 <= i < |items| && DeleteDisabled(deletingId, items[i].id)
  }

  /** With distinct ids at most one delete button is disabled, the one of the
      entry being deleted, and none when no delete is in flight. */
  lemma OnlyDeletingEntryDisabled(items: seq<ItinerarySummary>, deletingId: Option<string>)
    requires DistinctIds(items)
    ensures |DisabledButtons(items, deletingId)| <= 1
    ensures deletingId.None? ==> DisabledButtons(items, deletingId) == {}
    ensures forall i :: i in DisabledButtons(items, deletingId) ==> Some(items[i].id) == deletingId
  {
    var d := DisabledButtons(items, deletingId);
    if d != {} {
      var i :| i in d;
      assert d == {i} by {
        forall j | j in d
          ensures j == i
        {
          assert items[j].id == items[i].id;
        }
      }
    }
  }

  class MyItinerariesPage {
    var itineraries: seq<ItinerarySummary>
    var isLoading: bool
    var deletingId: Option<string>
    /** `router.push('/login')` calls. */
    var loginRedirects: nat
    /** DELETE requests sent. */
    var deleteRequests: nat
    /** "Failed to delete itinerary" alerts shown. */
    var alerts: nat

    constructor ()
      ensures itineraries == [] && isLoading && deletingId.None?
      ensures loginRedirects == 0 && deleteRequests == 0 && alerts == 0
    {
      itineraries := [];
      isLoading := true;
      deletingId := None;
      loginRedirects := 0;
      deleteRequests := 0;
      alerts := 0;
    }

    /** fetchItineraries: the list is replaced only on an ok response, and
      loading ends on every outcome. */
    method FetchItineraries(fetch: ListFetch)
      modifies this
      ensures itineraries == if fetch.FetchOk? then fetch.items else old(itineraries)
      ensures !isLoading
      ensures deletingId == old(deletingId) && loginRedirects == old(loginRedirects)
      ensures deleteRequests == old(deleteRequests) && alerts == old(alerts)
    {
      if fetch.FetchOk? {
        itineraries := fetch.items;
      }
      isLoading := false;
    }

    /** The effect run when the session status changes: signed-out users go
      to the login page without a fetch, signed-in users fetch the list. */
    method OnSessionStatus(status: SessionStatus, fetch: ListFetch)
      modifies this
      ensures loginRedirects == old(loginRedirects) + (if status == Unauthenticated then 1 else 0)
      ensures itineraries == if status == Authenticated && fetch.FetchOk? then fetch.items else old(itineraries)
      ensures isLoading == (status != Authenticated && old(isLoading))
      ensures deletingId == old(deletingId)
      ensures deleteRequests == old(deleteRequests) && alerts == old(alerts)
    {
      if status == Unauthenticated {
        loginRedirects := loginRedirects + 1;
        return;
      }
      if status == Authenticated {
        FetchItineraries(fetch);
      }
    }

    /** handleDelete up to the request: declined, nothing happens; confirmed,
      the entry is marked as being deleted and the request goes out. The
      handler's closure holds the list as it was at this point. */
    method BeginDelete(id: string, confirmed: bool) returns (started: bool, snapshot: seq<ItinerarySummary>)
      modifies this
      ensures started == confirmed && snapshot == old(itineraries)
      ensures deletingId == if confirmed then Some(id) else old(deletingId)
      ensures deleteRequests == old(deleteRequests) + (if confirmed then 1 else 0)
      ensures itineraries == old(itineraries) && isLoading == old(isLoading)
      ensures loginRedirects == old(loginRedirects) && alerts == old(alerts)
    {
      snapshot := itineraries;
      if !confirmed {
        return false, snapshot;
      }
      deletingId := Some(id);
      deleteRequests := deleteRequests + 1;
      started := true;
    }

    /** handleDelete after the request, as written: on success the list
      becomes the closure's list without the id. */
    method FinishDeleteAsWritten(id: string, snapshot: seq<ItinerarySummary>, result: DeleteResult)
      modifies this
      ensures itineraries == if result == DeleteOk then RemoveById(snapshot, id) else old(itineraries)
      ensures alerts == old(alerts) + (if result == DeleteOk then 0 else 1)
      ensures deletingId.None?
      ensures isLoading == old(isLoading) && loginRedirects == old(loginRedirects)
      ensures deleteRequests == old(deleteRequests)
    {
      if result == DeleteOk {
        itineraries := RemoveById(snapshot, id);
      } else {
        alerts := alerts + 1;
      }
      deletingId := None;
    }

    /** handleDelete after the request, corrected: on success the id is
      removed from the list as it is now. */
    method FinishDelete(id: string, result: DeleteResult)
      modifies this
      ensures itineraries == if result == DeleteOk then RemoveById(old(itineraries), id) else old(itineraries)
      ensures alerts == old(alerts) + (if result == DeleteOk then 0 else 1)
      ensures deletingId.None?
      ensures isLoading == old(isLoading) && loginRedirects == old(loginRedirects)
      ensures deleteRequests == old(deleteRequests)
    {
      if result == DeleteOk {
        itineraries := RemoveById(itineraries, id);
      } else {
        alerts := alerts + 1;
      }
      deletingId := None;
    }

    /** One delete from click to completion: declined, nothing changes;
      confirmed, one request, the entry leaves the list exactly when the
      request succeeds (an alert otherwise), and no delete is marked in
      flight afterwards. */
    method HandleDelete(id: string, confirmed: bool, result: DeleteResult)
      modifies this
      ensures itineraries == if confirmed && result == DeleteOk then RemoveById(old(itineraries), id) else old(itineraries)
      ensures deletingId == if confirmed then None else old(deletingId)
      ensures deleteRequests == old(deleteRequests) + (if confirmed then 1 else 0)
      ensures alerts == old(alerts) + (if confirmed && result != DeleteOk then 1 else 0)
      ensures isLoading == old(isLoading) && loginRedirects == old(loginRedirects)
    {
      var started, _ := BeginDelete(id, confirmed);
      if started {
        FinishDelete(id, result);
      }
    }

    /** Two confirmed deletes whose requests overlap, both succeeding, with
      the handler as written: the second completion writes back its own
      closure's list, which still holds the first entry. */
    method OverlappingDeletesAsWritten(a: string, b: string)
      modifies this
      ensures itineraries == AfterOverlapAsWritten(old(itineraries), a, b)
      ensures deletingId.None?
    {
      var _, snapshotA := BeginDelete(a, true);
      var _, snapshotB := BeginDelete(b, true);
      FinishDeleteAsWritten(a, snapshotA, DeleteOk);
      FinishDeleteAsWritten(b, snapshotB, DeleteOk);
    }

    /** Two confirmed deletes whose requests overlap, and the first one
      completing: both requests went out and the second is still pending,
      yet no delete is marked in flight any more, so the second entry's
      delete button is enabled again. Both handlers clear `deletingId`
      alike. */
    method FirstCompletionEnablesSecond(a: string, b: string)
      modifies this
      ensures deleteRequests == old(deleteRequests) + 2
      ensures !DeleteDisabled(deletingId, b) && !DeleteDisabled(deletingId, a)
    {
      var _, snapshotA := BeginDelete(a, true);
      var _, _ := BeginDelete(b, true);
      assert DeleteDisabled(deletingId, b);
      FinishDeleteAsWritten(a, snapshotA, DeleteOk);
    }

    /** The same interleaving with the corrected handler removes both. */
    method OverlappingDeletes(a: string, b: string)
      modifies this
      ensures itineraries == AfterOverlap(old(itineraries), a, b)
      ensures deletingId.None?
    {
      var _, _ := BeginDelete(a, true);
      var _, _ := BeginDelete(b, true);
      FinishDelete(a, DeleteOk);
      FinishDelete(b, DeleteOk);
    }
  }

  /** What the two overlapping deletes leave, as written and corrected: the
      lists OverlappingDeletesAsWritten and OverlappingDeletes end with. */
  function AfterOverlapAsWritten(items: seq<ItinerarySummary>, a: string, b: string): seq<ItinerarySummary> {
    RemoveById(items, b)
  }

  function AfterOverlap(items: seq<ItinerarySummary>, a: string, b: string): seq<ItinerarySummary> {
    RemoveById(RemoveById(items, a), b)
  }

  function Entry(id: string): ItinerarySummary {
    ItinerarySummary(id, "", "", "", "", "", "", "")
  }

  /** Deleting "a" and then "b" from the list [a, b] with overlapping
      requests, as written, shows "a" again. */
  lemma OverlapResurrectsEntry()
    ensures AfterOverlapAsWritten([Entry("a"), Entry("b")], "a", "b") == [Entry("a")]
  {
    var items := [Entry("a"), Entry("b")];
    assert items[1..] == [Entry("b")];
    assert RemoveById([Entry("b")], "b") == [];
  }

  /** Corrected, both deleted ids are gone, in either order of completion,
      and every other entry stays in its place. */
  lemma OverlapRemovesBoth(items: seq<ItinerarySummary>, a: string, b: string)
    ensures forall i :: 0 <= i < |AfterOverlap(items, a, b)| ==>
      AfterOverlap(items, a, b)[i].id != a && AfterOverlap(items, a, b)[i].id != b
    ensures AfterOverlap(items, a, b) == AfterOverlap(items, b, a)
    ensures forall x: ItinerarySummary :: x.id != a && x.id != b ==>
      multiset(AfterOverlap(items, a, b))[x] == multiset(items)[x]
  {
    var r := AfterOverlap(items, a, b);
    RemoveByIdCounts(items, a);
    RemoveByIdCounts(RemoveById(items, a), b);
    forall i | 0 <= i < |r|
      ensures r[i].id != a
    {
      assert r[i] in multiset(RemoveById(items, a));
    }
    RemoveByIdCommutes(items, a, b);
  }
}
