/** The two read-only reports, as functions of the registries. */
module Reports {
  import opened Instants
  import opened Zones
  import opened Domain

  /** `convertToDisplay(event.instant, user.timeZone)`. */
  function DisplayFor(w: World, e: Event, u: User): Shown
    requires Known(w.db, u.timeZone)
  {
    ConvertToDisplay(e.instant, OffsetOf(w.db, u.timeZone), w.browser)
  }

  /** A line of the viewer's own requests. */
  datatype MineRow = MineRow(requestId: nat, title: string, ownerFirstName: string,
                             ownerLastName: string, at: Shown, status: Status,
                             requesteeComment: string)

  /** A line of the requests others made for the viewer's events. */
  datatype TheirsRow = TheirsRow(requestId: nat, status: Status, attendeeFirstName: string,
                                 attendeeLastName: string, title: string, at: Shown,
                                 requestorComment: string)

  /** The personal digest: whose calendar it is and its two sections. */
  datatype Digest = Digest(firstName: string, lastName: string,
                           mine: seq<MineRow>, theirs: seq<TheirsRow>)

  /** One line of the administrative table. */
  datatype AdminRow = AdminRow(requestorName: string, requestorTimeZoneInstant: Shown,
                               requesteeName: string, requesteeTimeZoneInstant: Shown,
                               instant: Shown, status: Status)

  function FullName(u: User): string
  {
    u.firstName + " " + u.lastName
  }

  /** The "mine" line for request k, seen by user v. */
  function MineRowOf(w: World, v: nat, k: nat): (row: MineRow)
    requires Consistent(w) && v < |w.users| && k < |w.requests|
    ensures row.requestId == k
    ensures var event := w.events[w.requests[k].eventId];
            && row.at.wall == event.instant + OffsetOf(w.db, w.users[v].timeZone)
            && row.at.offset == w.browser
            && row.title == event.title
            && row.ownerFirstName == w.users[event.userId].firstName
            && row.ownerLastName == w.users[event.userId].lastName
    ensures row.status == w.requests[k].status
    ensures row.requesteeComment == w.requests[k].requesteeComment
  {
    var request := w.requests[k];
    var event := w.events[request.eventId];
    var owner := w.users[event.userId];
    MineRow(request.id, event.title, owner.firstName, owner.lastName,
            DisplayFor(w, event, w.users[v]), request.status, request.requesteeComment)
  }

  /** The "theirs" line for request k, seen by user v. */
  function TheirsRowOf(w: World, v: nat, k: nat): (row: TheirsRow)
    requires Consistent(w) && v < |w.users| && k < |w.requests|
    ensures row.requestId == k
    ensures var event := w.events[w.requests[k].eventId];
            && row.at.wall == event.instant + OffsetOf(w.db, w.users[v].timeZone)
            && row.at.offset == w.browser
            && row.title == event.title
    ensures row.attendeeFirstName == w.users[w.requests[k].userId].firstName
    ensures row.attendeeLastName == w.users[w.requests[k].userId].lastName
    ensures row.status == w.requests[k].status
    ensures row.requestorComment == w.requests[k].requestorComment
  {
    var request := w.requests[k];
    var event := w.events[request.eventId];
    var attendee := w.users[request.userId];
    TheirsRow(request.id, request.status, attendee.firstName, attendee.lastName,
              event.title, DisplayFor(w, event, w.users[v]), request.requestorComment)
  }

  /** The requests among the first n that go into user v's "mine"
      section, in request order: those v made. */
  function MineSelection(w: World, v: nat, n: nat): (ids: seq<nat>)
    requires n <= |w.requests|
    ensures forall j :: 0 <= j < |ids| ==> ids[j] < n && w.requests[ids[j]].userId == v
    ensures forall a, b :: 0 <= a < b < |ids| ==> ids[a] < ids[b]
  {
    if n == 0 then []
    else MineSelection(w, v, n - 1) + (if w.requests[n - 1].userId == v then [n - 1] else [])
  }

  /** The requests among the first n that go into user v's "theirs"
      section, in request order: those someone else made for an event v owns. */
  function TheirsSelection(w: World, v: nat, n: nat): (ids: seq<nat>)
    requires Consistent(w) && n <= |w.requests|
    ensures forall j :: 0 <= j < |ids| ==>
              && ids[j] < n
              && w.requests[ids[j]].userId != v
              && w.events[w.requests[ids[j]].eventId].userId == v
    ensures forall a, b :: 0 <= a < b < |ids| ==> ids[a] < ids[b]
  {
    if n == 0 then []
    else
      var request := w.requests[n - 1];
      TheirsSelection(w, v, n - 1)
      + (if request.userId != v && w.events[request.eventId].userId == v then [n - 1] else [])
  }

  /** The "mine" section over the first n requests. */
  function MineRows(w: World, v: nat, n: nat): (rows: seq<MineRow>)
    requires Consistent(w) && v < |w.users| && n <= |w.requests|
  {
    var ids := MineSelection(w, v, n);
    seq(|ids|, j requires 0 <= j < |ids| => MineRowOf(w, v, ids[j]))
  }

  /** The "theirs" section over the first n requests. */
  function TheirsRows(w: World, v: nat, n: nat): (rows: seq<TheirsRow>)
    requires Consistent(w) && v < |w.users| && n <= |w.requests|
  {
    var ids := TheirsSelection(w, v, n);
    seq(|ids|, j requires 0 <= j < |ids| => TheirsRowOf(w, v, ids[j]))
  }

  /** One more request adds at most one line to each section. */
  lemma ReviewStep(w: World, v: nat, n: nat)
    requires Consistent(w) && v < |w.users| && n < |w.requests|
    ensures MineRows(w, v, n + 1) == MineRows(w, v, n)
              + (if w.requests[n].userId == v then [MineRowOf(w, v, n)] else [])
    ensures TheirsRows(w, v, n + 1) == TheirsRows(w, v, n)
              + (if w.requests[n].userId != v && w.events[w.requests[n].eventId].userId == v
                 then [TheirsRowOf(w, v, n)] else [])
  {
    MineStep(w, v, n);
    TheirsStep(w, v, n);
  }

  lemma MineStep(w: World, v: nat, n: nat)
    requires Consistent(w) && v < |w.users| && n < |w.requests|
    ensures MineRows(w, v, n + 1) == MineRows(w, v, n)
              + (if w.requests[n].userId == v then [MineRowOf(w, v, n)] else [])
  {
    var ids, ids' := MineSelection(w, v, n + 1), MineSelection(w, v, n);
    assert ids[..|ids'|] == ids';
  }

  lemma TheirsStep(w: World, v: nat, n: nat)
    requires Consistent(w) && v < |w.users| && n < |w.requests|
    ensures TheirsRows(w, v, n + 1) == TheirsRows(w, v, n)
              + (if w.requests[n].userId != v && w.events[w.requests[n].eventId].userId == v
                 then [TheirsRowOf(w, v, n)] else [])
  {
    var ids, ids' := TheirsSelection(w, v, n + 1), TheirsSelection(w, v, n);
    assert ids[..|ids'|] == ids';
  }

  /** A request is in "mine" exactly when the viewer made it, and in
      "theirs" exactly when someone else made it for an event the viewer
      owns; each section lists its requests in order, one line each. */
  lemma ReviewSplitsRequests(w: World, v: nat, n: nat)
    requires Consistent(w) && v < |w.users| && n <= |w.requests|
    ensures forall k :: 0 <= k < n ==>
              (k in MineSelection(w, v, n) <==> w.requests[k].userId == v)
    ensures forall k :: 0 <= k < n ==>
              (k in TheirsSelection(w, v, n) <==>
                 w.requests[k].userId != v && w.events[w.requests[k].eventId].userId == v)
    ensures forall j :: 0 <= j < |MineRows(w, v, n)| ==>
              MineRows(w, v, n)[j].requestId == MineSelection(w, v, n)[j]
    ensures forall j :: 0 <= j < |TheirsRows(w, v, n)| ==>
              TheirsRows(w, v, n)[j].requestId == TheirsSelection(w, v, n)[j]
  {
    forall k | 0 <= k < n
      ensures k in MineSelection(w, v, n) <==> w.requests[k].userId == v
      ensures k in TheirsSelection(w, v, n) <==>
                w.requests[k].userId != v && w.events[w.requests[k].eventId].userId == v
    {
      MineSelected(w, v, n, k);
      TheirsSelected(w, v, n, k);
    }
  }

  lemma {:induction false} MineSelected(w: World, v: nat, n: nat, k: nat)
    requires k < n <= |w.requests|
    ensures k in MineSelection(w, v, n) <==> w.requests[k].userId == v
  {
    if k < n - 1 {
      MineSelected(w, v, n - 1, k);
    }
  }

  lemma {:induction false} TheirsSelected(w: World, v: nat, n: nat, k: nat)
    requires Consistent(w) && k < n <= |w.requests|
    ensures k in TheirsSelection(w, v, n) <==>
              w.requests[k].userId != v && w.events[w.requests[k].eventId].userId == v
  {
    if k < n - 1 {
      TheirsSelected(w, v, n - 1, k);
    }
  }

  /** No request is listed in both sections. */
  lemma ReviewNeverInBoth(w: World, v: nat, k: nat)
    requires Consistent(w) && v < |w.users| && k < |w.requests|
    ensures !(k in MineSelection(w, v, |w.requests|) && k in TheirsSelection(w, v, |w.requests|))
  {
  }

  /** The digest of user v. */
  function Review(w: World, v: nat): (d: Digest)
    requires Consistent(w) && v < |w.users|
    ensures d.firstName == w.users[v].firstName && d.lastName == w.users[v].lastName
  {
    Digest(w.users[v].firstName, w.users[v].lastName,
           MineRows(w, v, |w.requests|), TheirsRows(w, v, |w.requests|))
  }

  /** The administrative line for request k: the event's time in the
      requestor's zone and in the owner's zone, the raw instant in the
      browser's zone, and the status. */
  function AdminRowOf(w: World, k: nat): AdminRow
    requires Consistent(w) && k < |w.requests|
  {
    var request := w.requests[k];
    var requestor := w.users[request.userId];
    var event := w.events[request.eventId];
    var requestee := w.users[event.userId];
    AdminRow(FullName(requestor), DisplayFor(w, event, requestor),
             FullName(requestee), DisplayFor(w, event, requestee),
             DebugInstant(Moment(event.instant, w.browser)), request.status)
  }

  /** The administrative table over the first n requests: one line per
      request, in request order. */
  function AdminRows(w: World, n: nat): (rows: seq<AdminRow>)
    requires Consistent(w) && n <= |w.requests|
    ensures |rows| == n
    ensures forall k :: 0 <= k < n ==> rows[k] == AdminRowOf(w, k)
  {
    if n == 0 then [] else AdminRows(w, n - 1) + [AdminRowOf(w, n - 1)]
  }

  /** What a line of the administrative table shows: both parties' wall
      clocks for the same stored instant, as far apart as their zones'
      offsets, all under the browser's offset, the two names, and the raw instant as the browser shows it. */
  lemma AdminRowShowsBothZones(w: World, k: nat)
    requires Consistent(w) && k < |w.requests|
    ensures var row := AdminRowOf(w, k);
            var request := w.requests[k];
            var event := w.events[request.eventId];
            var requestor := w.users[request.userId];
            var requestee := w.users[event.userId];
            && row.requestorTimeZoneInstant.wall == event.instant + OffsetOf(w.db, requestor.timeZone)
            && row.requesteeTimeZoneInstant.wall == event.instant + OffsetOf(w.db, requestee.timeZone)
            && row.requesteeTimeZoneInstant.wall - row.requestorTimeZoneInstant.wall
               == OffsetOf(w.db, requestee.timeZone) - OffsetOf(w.db, requestor.timeZone)
            && row.requestorTimeZoneInstant.offset == w.browser
            && row.requesteeTimeZoneInstant.offset == w.browser
            && row.requestorName == FullName(requestor)
            && row.requesteeName == FullName(requestee)
            && row.instant == Shown(event.instant + w.browser, w.browser)
            && InstantOf(row.instant) == event.instant
            && row.status == request.status
  {
  }
}
