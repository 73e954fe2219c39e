/** The scheduling workflow over its three shared, append-only registries. */
module Workflow {
  import opened Failures
  import opened Zones
  import opened Instants
  import opened Registry
  import opened Domain
  import opened Reports

  /** The closure state of the workflow: the `users`, `events` and
      `requests` arrays, the zone database and the browser's offset. */
  class Scheduler {
    const db: seq<Zone>
    const browser: int
    var users: seq<User>
    var events: seq<Event>
    var requests: seq<Request>

    ghost function Snapshot(): World
      reads this
    {
      World(db, browser, users, events, requests)
    }

    ghost predicate Valid()
      reads this
    {
      Consistent(Snapshot())
    }

    /** Empty registries over a zone database, in a browser at a fixed offset. */
    constructor (db: seq<Zone>, browser: int)
      ensures Valid()
      ensures this.db == db && this.browser == browser
      ensures users == [] && events == [] && requests == []
    {
      this.db := db;
      this.browser := browser;
      users, events, requests := [], [], [];
    }

    /** `registerUser`: resolve the city, then append a user whose id is the
        old number of users. Nothing changes when the city resolves to no zone. */
    method RegisterUser(firstName: string, lastName: string, city: string, defaultResponse: string)
      returns (r: Result<User>)
      requires Valid()
      modifies this
      ensures Valid()
      ensures events == old(events) && requests == old(requests)
      ensures ResolvedName(db, city).Failure? ==> r == Failure(NoZoneFound) && users == old(users)
      ensures ResolvedName(db, city).Success? ==>
                && r == Success(User(|old(users)|, firstName, lastName, city,
                                     ResolvedName(db, city).value, defaultResponse, false))
                && users == old(users) + [r.value]
      ensures StatusOnlyAdvances(old(requests), requests)
    {
      var timeZone := GetTimeZone(db, city);
      if timeZone.Failure? {
        return Failure(timeZone.error);
      }
      var user := User(|users|, firstName, lastName, city, timeZone.value, defaultResponse, false);
      AppendKeepsKeyedByIndex(users, UserKey, user);
      users := users + [user];
      return Success(user);
    }

    /** `createEvent`: store the browser-entered instant against the owner's
        current zone and append an event whose id is the old number of events. */
    method CreateEvent(userId: nat, title: string, instant: int) returns (event: Event)
      requires Valid() && userId < |users|
      modifies this
      ensures Valid()
      ensures users == old(users) && requests == old(requests)
      ensures event == Event(|old(events)|, userId, title,
                             ConvertToStorage(instant, OffsetOf(db, users[userId].timeZone), browser))
      ensures events == old(events) + [event]
      ensures StatusOnlyAdvances(old(requests), requests)
    {
      var user := users[userId];
      event := Event(|events|, user.id, title,
                     ConvertToStorage(instant, OffsetOf(db, user.timeZone), browser));
      AppendKeepsKeyedByIndex(events, EventKey, event);
      events := events + [event];
    }

    /** `makeRequest`: append a pending request whose id is the old number of
        requests, its reply preset to the event owner's default response. */
    method MakeRequest(userId: nat, eventId: nat, comment: string) returns (request: Request)
      requires Valid() && userId < |users| && eventId < |events|
      modifies this
      ensures Valid()
      ensures users == old(users) && events == old(events)
      ensures request == Request(|old(requests)|, userId, eventId, comment, Pending,
                                 users[events[eventId].userId].defaultResponse)
      ensures requests == old(requests) + [request]
      ensures StatusOnlyAdvances(old(requests), requests)
    {
      var event := events[eventId];
      FindByIndex(users, UserKey, event.userId);
      var owner := Find(users, UserKey, event.userId).value;
      request := Request(|requests|, users[userId].id, event.id, comment, Pending, owner.defaultResponse);
      AppendKeepsKeyedByIndex(requests, RequestKey, request);
      requests := requests + [request];
    }

    /** `approveRequest`: only the owner of the request's event may approve;
        approval sets that request's status and reply and nothing else. */
    method ApproveRequest(userId: nat, requestId: nat, comment: string) returns (o: Outcome)
      requires Valid() && userId < |users| && requestId < |requests|
      modifies this
      ensures Valid()
      ensures users == old(users) && events == old(events)
      ensures userId != events[old(requests)[requestId].eventId].userId ==>
                o == Fail(NotOwner) && requests == old(requests)
      ensures userId == events[old(requests)[requestId].eventId].userId ==>
                && o == Pass
                && requests == old(requests)[requestId :=
                     old(requests)[requestId].(status := Approved, requesteeComment := comment)]
      ensures StatusOnlyAdvances(old(requests), requests)
    {
      var request := requests[requestId];
      FindByIndex(events, EventKey, request.eventId);
      var event := Find(events, EventKey, request.eventId).value;
      FindByIndex(users, UserKey, event.userId);
      var owner := Find(users, UserKey, event.userId).value;
      if users[userId].id != owner.id {
        return Fail(NotOwner);
      }
      requests := requests[requestId := request.(status := Approved, requesteeComment := comment)];
      return Pass;
    }

    /** `updateUserLocation`: re-resolve the user's zone from a new city.
        Only that user's `timeZone` changes (not even `city`); stored event
        instants and requests do not. */
    method UpdateUserLocation(userId: nat, city: string) returns (o: Outcome)
      requires Valid() && userId < |users|
      modifies this
      ensures Valid()
      ensures events == old(events) && requests == old(requests)
      ensures ResolvedName(db, city).Failure? ==> o == Fail(NoZoneFound) && users == old(users)
      ensures ResolvedName(db, city).Success? ==>
                && o == Pass
                && users == old(users)[userId :=
                     old(users)[userId].(timeZone := ResolvedName(db, city).value)]
      ensures StatusOnlyAdvances(old(requests), requests)
    {
      var timeZone := GetTimeZone(db, city);
      if timeZone.Failure? {
        return Fail(timeZone.error);
      }
      users := users[userId := users[userId].(timeZone := timeZone.value)];
      return Pass;
    }

    /** The direct assignment `user.isAdmin = true`. */
    method GrantAdmin(userId: nat)
      requires Valid() && userId < |users|
      modifies this
      ensures Valid()
      ensures events == old(events) && requests == old(requests)
      ensures users == old(users)[userId := old(users)[userId].(isAdmin := true)]
      ensures StatusOnlyAdvances(old(requests), requests)
    {
      users := users[userId := users[userId].(isAdmin := true)];
    }

    /** `reviewRequests`: one pass over the requests in order, filling the
        viewer's "mine" and "theirs" sections. */
    method ReviewRequests(userId: nat) returns (d: Digest)
      requires Valid() && userId < |users|
      ensures d == Review(Snapshot(), userId)
    {
      ghost var w := Snapshot();
      var user := users[userId];
      assert user.id == userId;
      var mine: seq<MineRow> := [];
      var theirs: seq<TheirsRow> := [];
      for i := 0 to |requests|
        invariant mine == MineRows(w, userId, i)
        invariant theirs == TheirsRows(w, userId, i)
      {
        var request := requests[i];
        FindsOfRequest(w, i);
        ReviewStep(w, userId, i);
        var event := Find(events, EventKey, request.eventId).value;
        var instant := ConvertToDisplay(event.instant, OffsetOf(db, user.timeZone), browser);
        var owner := Find(users, UserKey, event.userId).value;
        assert owner.id == event.userId;
        if request.userId == user.id {
          var row := MineRow(request.id, event.title, owner.firstName, owner.lastName,
                             instant, request.status, request.requesteeComment);
          assert row == MineRowOf(w, userId, i);
          mine := mine + [row];
        } else if owner.id == user.id {
          var attendee := Find(users, UserKey, request.userId).value;
          var row := TheirsRow(request.id, request.status, attendee.firstName,
                               attendee.lastName, event.title, instant, request.requestorComment);
          assert row == TheirsRowOf(w, userId, i);
          theirs := theirs + [row];
        }
      }
      d := Digest(user.firstName, user.lastName, mine, theirs);
    }

    /** `administerRequests`: refused unless the viewer is an admin;
        otherwise one line per request, in request order. */
    method AdministerRequests(userId: nat) returns (r: Result<seq<AdminRow>>)
      requires Valid() && userId < |users|
      ensures r.Failure? <==> !users[userId].isAdmin
      ensures r.Failure? ==> r.error == NotAdmin
      ensures r.Success? ==> r.value == AdminRows(Snapshot(), |requests|)
    {
      if !users[userId].isAdmin {
        return Failure(NotAdmin);
      }
      ghost var w := Snapshot();
      var report: seq<AdminRow> := [];
      for i := 0 to |requests|
        invariant report == AdminRows(w, i)
      {
        var request := requests[i];
        FindByIndex(users, UserKey, request.userId);
        var requestor := Find(users, UserKey, request.userId).value;
        var requestorName := FullName(requestor);
        FindByIndex(events, EventKey, request.eventId);
        var event := Find(events, EventKey, request.eventId).value;
        var requestorTimeZoneInstant :=
          ConvertToDisplay(event.instant, OffsetOf(db, requestor.timeZone), browser);
        FindByIndex(users, UserKey, event.userId);
        var requestee := Find(users, UserKey, event.userId).value;
        var requesteeName := FullName(requestee);
        var requesteeTimeZoneInstant :=
          ConvertToDisplay(event.instant, OffsetOf(db, requestee.timeZone), browser);
        var instant := DebugInstant(Moment(event.instant, browser));
        var row := AdminRow(requestorName, requestorTimeZoneInstant, requesteeName,
                            requesteeTimeZoneInstant, instant, request.status);
        assert requestor == w.users[w.requests[i].userId];
        assert event == w.events[w.requests[i].eventId];
        assert requestee == w.users[event.userId];
        assert row == AdminRowOf(w, i);
        report := report + [row];
      }
      return Success(report);
    }
  }

  /** The three lookups a report makes for request i find the entries at
      the referenced positions. */
  lemma FindsOfRequest(w: World, i: nat)
    requires Consistent(w) && i < |w.requests|
    ensures var request := w.requests[i];
            var event := w.events[request.eventId];
            && Find(w.events, EventKey, request.eventId) == Some(event)
            && Find(w.users, UserKey, event.userId) == Some(w.users[event.userId])
            && Find(w.users, UserKey, request.userId) == Some(w.users[request.userId])
  {
    var request := w.requests[i];
    FindByIndex(w.events, EventKey, request.eventId);
    FindByIndex(w.users, UserKey, w.events[request.eventId].userId);
    FindByIndex(w.users, UserKey, request.userId);
  }
}
