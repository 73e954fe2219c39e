/** The first part of the walkthrough at the end of index.js, replayed
    against the contracts of the scheduler: a lecture in Honolulu requested
    from Buenos Aires. One step is added that the walkthrough does not take:
    the requestor tries to approve her own request and is refused. */
module Walkthrough {
  import opened Failures
  import opened Zones
  import opened Instants
  import opened Domain
  import opened Reports
  import opened Workflow

  /** Ben signs up in Honolulu and creates a lecture at the entered instant. */
  method AnnounceLecture(db: seq<Zone>, browser: int, instant: int, honolulu: string)
    returns (s: Scheduler)
    requires ResolvedName(db, "Honolulu") == Success(honolulu)
    ensures fresh(s) && s.Valid() && s.db == db && s.browser == browser
    ensures s.users == [User(0, "Ben", "Miller", "Honolulu", honolulu, "I'll get back to you ASAP", false)]
    ensures s.events == [Event(0, 0, "My New Book", ConvertToStorage(instant, OffsetOf(db, honolulu), browser))]
    ensures s.requests == []
  {
    s := new Scheduler(db, browser);
    var ben := s.RegisterUser("Ben", "Miller", "Honolulu", "I'll get back to you ASAP");
    assert s.users == [ben.value] && ben.value.timeZone == honolulu;
    var lecture := s.CreateEvent(0, "My New Book", instant);
  }

  /** Jane signs up in Buenos Aires and asks to attend the lecture. */
  method AskToAttend(s: Scheduler, buenosAires: string)
    requires s.Valid() && |s.users| == 1 && |s.events| == 1 && s.requests == []
    requires ResolvedName(s.db, "Buenos Aires") == Success(buenosAires)
    modifies s
    ensures s.Valid() && s.events == old(s.events)
    ensures s.users == old(s.users) + [User(1, "Jane", "Dorothy", "Buenos Aires", buenosAires, "Will respond when I can", false)]
    ensures s.requests == [Request(0, 1, 0, "I'd like to attend!", Pending, old(s.users)[0].defaultResponse)]
  {
    var jane := s.RegisterUser("Jane", "Dorothy", "Buenos Aires", "Will respond when I can");
    assert s.users == old(s.users) + [jane.value];
    var request := s.MakeRequest(1, 0, "I'd like to attend!");
  }

  /** The requestor tries to approve her own request and is refused; the
      owner approves it with his own comment. */
  method SettleRequest(s: Scheduler) returns (refused: Outcome)
    requires s.Valid() && |s.users| == 2 && |s.requests| == 1
    requires s.requests[0].userId == 1 && s.events[s.requests[0].eventId].userId == 0
    modifies s
    ensures s.Valid() && s.users == old(s.users) && s.events == old(s.events)
    ensures refused == Fail(NotOwner)
    ensures s.requests == [old(s.requests)[0].(status := Approved, requesteeComment := "Okay!")]
  {
    refused := s.ApproveRequest(1, 0, "Sure!");
    var approved := s.ApproveRequest(0, 0, "Okay!");
  }

  /** After the booking, the requestor's digest lists the request, pending,
      at 22:00 of the owner's 15:00, with the owner's default reply. */
  method FirstLook(db: seq<Zone>, browser: int, day: int, instant: int,
                   honolulu: string, buenosAires: string)
    returns (s: Scheduler, before: Digest)
    requires ResolvedName(db, "Honolulu") == Success(honolulu) && OffsetOf(db, honolulu) == Honolulu
    requires ResolvedName(db, "Buenos Aires") == Success(buenosAires)
    requires OffsetOf(db, buenosAires) == BuenosAires
    requires Local(Moment(instant, browser)) == day * MinutesPerDay + 15 * 60
    ensures fresh(s) && s.Valid() && s.browser == browser && |s.users| == 2 && |s.requests| == 1
    ensures s.requests[0].userId == 1 && s.events[s.requests[0].eventId].userId == 0
    ensures s.requests[0].status == Pending && s.requests[0].requestorComment == "I'd like to attend!"
    ensures s.users[1].firstName == "Jane" && s.users[1].lastName == "Dorothy"
    ensures OffsetOf(s.db, s.users[0].timeZone) == Honolulu
    ensures s.events[s.requests[0].eventId].instant + Honolulu == day * MinutesPerDay + 15 * 60
    ensures |before.mine| == 1 && before.theirs == []
    ensures before.mine[0].at == Shown(day * MinutesPerDay + 22 * 60, browser)
    ensures before.mine[0].status == Pending
    ensures before.mine[0].requesteeComment == "I'll get back to you ASAP"
  {
    s := AnnounceLecture(db, browser, instant, honolulu);
    AskToAttend(s, buenosAires);
    ghost var w := s.Snapshot();
    assert MineSelection(w, 1, 1) == [0];
    assert TheirsSelection(w, 1, 1) == [];
    before := s.ReviewRequests(1);
    assert before.mine == [MineRowOf(w, 1, 0)];
  }

  /** The owner's digest lists the request under "theirs", at the 15:00 he
      entered, with the requestor's name and comment. */
  method OwnerLook(s: Scheduler, day: int) returns (d: Digest)
    requires s.Valid() && |s.users| == 2 && |s.requests| == 1
    requires s.requests[0].userId == 1 && s.events[s.requests[0].eventId].userId == 0
    requires OffsetOf(s.db, s.users[0].timeZone) == Honolulu
    requires s.events[s.requests[0].eventId].instant + Honolulu == day * MinutesPerDay + 15 * 60
    ensures d.mine == [] && |d.theirs| == 1
    ensures d.theirs[0].at == Shown(day * MinutesPerDay + 15 * 60, s.browser)
    ensures d.theirs[0].status == s.requests[0].status
    ensures d.theirs[0].attendeeFirstName == s.users[1].firstName
    ensures d.theirs[0].attendeeLastName == s.users[1].lastName
    ensures d.theirs[0].requestorComment == s.requests[0].requestorComment
  {
    ghost var w := s.Snapshot();
    assert MineSelection(w, 0, 1) == [];
    assert TheirsSelection(w, 0, 1) == [0];
    d := s.ReviewRequests(0);
    assert d.theirs == [TheirsRowOf(w, 0, 0)];
  }

  /** The settlement and the requestor's last look: her digest now shows the
      request approved with the owner's comment. */
  method LastLook(s: Scheduler) returns (refused: Outcome, after: Digest)
    requires s.Valid() && |s.users| == 2 && |s.requests| == 1
    requires s.requests[0].userId == 1 && s.events[s.requests[0].eventId].userId == 0
    modifies s
    ensures refused == Fail(NotOwner)
    ensures |after.mine| == 1 && after.mine[0].status == Approved
    ensures after.mine[0].requesteeComment == "Okay!"
  {
    refused := SettleRequest(s);
    ghost var w := s.Snapshot();
    assert MineSelection(w, 1, 1) == [0];
    after := s.ReviewRequests(1);
    assert after.mine == [MineRowOf(w, 1, 0)];
  }

  /** Any zone database in which "Honolulu" and "Buenos Aires" resolve to
      zones at UTC-10 and UTC-3 will do. The owner enters 15:00 on some day;
      the requestor's digest shows 22:00 that day, pending with the owner's
      default reply; the owner's digest shows her request at 15:00, pending,
      with her comment; the requestor cannot approve her own request (a step
      the walkthrough does not take); after the owner approves, her digest
      shows it approved with his comment. */
  method HonoluluLectureFromBuenosAires(db: seq<Zone>, browser: int, day: int, instant: int,
                                        honolulu: string, buenosAires: string)
    returns (before: Digest, owner: Digest, refused: Outcome, after: Digest)
    requires ResolvedName(db, "Honolulu") == Success(honolulu) && OffsetOf(db, honolulu) == Honolulu
    requires ResolvedName(db, "Buenos Aires") == Success(buenosAires)
    requires OffsetOf(db, buenosAires) == BuenosAires
    requires Local(Moment(instant, browser)) == day * MinutesPerDay + 15 * 60
    ensures |before.mine| == 1 && before.theirs == []
    ensures before.mine[0].at == Shown(day * MinutesPerDay + 22 * 60, browser)
    ensures before.mine[0].status == Pending
    ensures before.mine[0].requesteeComment == "I'll get back to you ASAP"
    ensures owner.mine == [] && |owner.theirs| == 1
    ensures owner.theirs[0].at == Shown(day * MinutesPerDay + 15 * 60, browser)
    ensures owner.theirs[0].status == Pending
    ensures owner.theirs[0].attendeeFirstName == "Jane"
    ensures owner.theirs[0].requestorComment == "I'd like to attend!"
    ensures refused == Fail(NotOwner)
    ensures |after.mine| == 1 && after.mine[0].status == Approved
    ensures after.mine[0].requesteeComment == "Okay!"
  {
    var s;
    s, before := FirstLook(db, browser, day, instant, honolulu, buenosAires);
    owner := OwnerLook(s, day);
    refused, after := LastLook(s);
  }
}
