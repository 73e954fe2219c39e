/** The scheduling entities and the consistency of the three registries. */
module Domain {
  import opened Zones
  import opened Registry

  /** A request is pending until the event's owner approves it; there is no
      rejection. */
  datatype Status = Pending | Approved

  /** A registered user; `timeZone` is the resolved zone name, `city` the
      text it was first resolved from. */
  datatype User = User(id: nat, firstName: string, lastName: string, city: string,
                       timeZone: string, defaultResponse: string, isAdmin: bool)

  /** An event; `instant` is the stored UTC instant in epoch minutes. */
  datatype Event = Event(id: nat, userId: nat, title: string, instant: int)

  /** A request by user `userId` to attend event `eventId`. */
  datatype Request = Request(id: nat, userId: nat, eventId: nat, requestorComment: string,
                             status: Status, requesteeComment: string)

  function UserKey(u: User): nat { u.id }
  function EventKey(e: Event): nat { e.id }
  function RequestKey(q: Request): nat { q.id }

  /** Everything the workflow reads: the zone database, the browser's
      offset, and the three registries. */
  datatype World = World(db: seq<Zone>, browser: int, users: seq<User>,
                         events: seq<Event>, requests: seq<Request>)

  /** Every entry's id is its position, every reference points at an
      existing entry, and every user's zone is in the database. */
  ghost predicate Consistent(w: World)
  {
    && KeyedByIndex(w.users, UserKey)
    && KeyedByIndex(w.events, EventKey)
    && KeyedByIndex(w.requests, RequestKey)
    && (forall i :: 0 <= i < |w.users| ==> Known(w.db, w.users[i].timeZone))
    && (forall i :: 0 <= i < |w.events| ==> w.events[i].userId < |w.users|)
    && (forall i :: 0 <= i < |w.requests| ==>
          w.requests[i].userId < |w.users| && w.requests[i].eventId < |w.events|)
  }

  /** No request is dropped and no approved request is pending again. */
  ghost predicate StatusOnlyAdvances(before: seq<Request>, after: seq<Request>)
  {
    && |before| <= |after|
    && forall i :: 0 <= i < |before| && before[i].status == Approved ==> after[i].status == Approved
  }
}
