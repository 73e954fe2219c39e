# Time-zone-aware event scheduling, modelled in Dafny

This is a model of `index.js`, a small browser-side scheduler. Users
register with a city, and the city is resolved to a time zone. A user can
create events at a wall-clock time entered in the browser. Other users
request to attend, and event owners approve those requests. There are two
reports: a personal digest of requests, and an administrative table.

The model has three parts.

- **Zone resolution** (`Zones`, `Text`). `getTimeZone` works as follows:
  - upper-case the city and turn each space into `_`;
  - keep every zone whose upper-cased name contains that string;
  - fail on none, and return the only candidate as it is;
  - otherwise scan the candidates for the highest population, with `>=`,
    so on a tie the last candidate wins.

  The zone database is a parameter: a sequence of (name, population,
  offset) entries. `GetTimeZone` keeps the source's loop. It is proved equal
  to `ResolvedName`, a specification function that picks the last
  most-populous match (`BestMatch`).
- **Instant conversion** (`Instants`). Instants are whole minutes since the
  epoch, and every zone has a fixed offset in minutes.
  - A `Moment` is an instant together with the offset it is shown at.
  - `.tz(z)` keeps the instant. `.tz(z, true)` keeps the wall clock and
    moves the instant.
  - Storage reinterprets the browser's wall clock in the profile zone.
  - Display shows the profile zone's wall clock under the browser's offset.
- **The workflow** (`Domain`, `Registry`, `Reports`, `Workflow`).
  - The closure's three arrays become the `seq` fields of the `Scheduler`
    class. Its methods append to and update those fields in place.
  - `Valid()` is the consistency the appends keep:
    - every id equals its position;
    - every reference is in range;
    - every user's zone is in the database.
  - Every method that changes the registries ensures `StatusOnlyAdvances`:
    no request is dropped, and an approved request never becomes pending
    again.
  - The two reports are loops. Each is proved equal to a function of the
    registries (`Review`, `AdminRows`), and the report's properties are
    lemmas about that function.

`Walkthrough` replays the first part of the source's walkthrough against
the scheduler's contracts (index.js:151-172):
- Ben, in Honolulu (UTC−10), enters 15:00.
- Jane, in Buenos Aires (UTC−3), sees 22:00 on the same day, pending, with
  Ben's default reply (index.js:163).
- Ben sees her request at 15:00, pending, with her name and comment
  (index.js:166).
- After Ben approves, she sees the request approved with his comment
  (index.js:169-172).

One step is added that the source's walkthrough does not take: before Ben
approves, Jane tries to approve her own request and is refused.

The 22:00 follows from the offsets: 15:00 at −600 minutes is 01:00 UTC the
next day, which is 22:00 at −180 minutes.

## Model

| member | source | states |
|---|---|---|
| Text.Upper | index.js:7 | `toUpperCase` on ASCII: same length, no lower-case letter is left, every other character is kept, each lower-case letter is moved down by 32 |
| Text.Normalize | index.js:7 | the normalised city: same length, no lower-case letter and no space, each space becomes `_`, every other character is upper-cased |
| Text.UpperIdempotent | index.js:7 | upper-casing twice is upper-casing once |
| Text.NormalizeIgnoresCase | index.js:7 | the normal form of the upper-cased city is the normal form of the city |
| Text.NormalizeSpaceIsUnderscore | index.js:7 | a space and an underscore at the same position normalise alike |
| Text.ContainsEmpty | index.js:7 | `includes('')` holds for every string |
| Zones.Candidates | index.js:7 | the filtered list holds exactly the database entries whose upper-cased name contains the normalised city, and is no longer than the database |
| Zones.BestMatch | index.js:12-24 | the index of a matching entry with the highest population among all matches; every later match is strictly less populous, so it is the last of the maxima |
| Zones.LastMax | index.js:16-23 | the index the `>=` scan ends on holds the highest population of the list, and every later entry is strictly less populous |
| Zones.CandidatesOfConcat | index.js:7 | filtering a concatenation of two databases is the concatenation of their filtered lists, so the filter keeps database order |
| Zones.ResolvedName | index.js:6-27 | it fails, with the no-zone error, exactly when no entry matches; on success the name is in the database and its upper-cased form contains the normalised city |
| Zones.NoMatchNoCandidates | index.js:7-10 | with no matching entry the filtered list is empty |
| Zones.ScanAgreesWithBestMatch | index.js:13-23 | filtering and then scanning with `>=` ends on exactly the entry `BestMatch` picks |
| Zones.GetTimeZone | index.js:6-27 | the loop fails with the no-zone error exactly when nothing matches; it returns the only candidate when there is one, and otherwise the name of the last most-populous match; its result equals `ResolvedName` |
| Zones.TieGoesToLast | index.js:19-22 | in a database holding just two equally populous matches, the later one is returned |
| Zones.TieNeverGoesToEarlier | index.js:19-22 | in any database, of two equally populous matches the earlier one is never picked |
| Zones.SameNormalFormSameZone | index.js:7 | two cities with the same normal form resolve to the same result |
| Zones.BestMatchOnlyNeedsNormalForm | index.js:12-24 | the chosen index depends on the city only through its normal form |
| Zones.ResolvedIgnoresCase | index.js:7 | the upper-cased city resolves exactly as the city does |
| Zones.EmptyCityPicksMostPopulous | index.js:7-23 | the empty city matches every entry, so it resolves, and to a zone at least as populous as any entry |
| Zones.ZoneIndex | index.js:18 | `moment.tz.zone(name)`: the first database entry with that name; the same lookup serves `.tz(name)` at index.js:35 and :51 |
| Zones.LookupFindsEntry | index.js:18 | when names are unique, looking an entry up by its own name finds that entry, so the scan reads the entry's own population |
| Instants.Tz | index.js:51 | a true conversion keeps the UTC instant and sets the offset |
| Instants.TzKeepLocal | index.js:35 | keeping local time keeps the wall clock and sets the offset |
| Instants.DebugInstant | index.js:205-207 | the wall-clock fields and the offset; together they identify the instant |
| Instants.ConvertToStorage | index.js:29-43 | the stored instant is the entered instant plus the browser offset minus the profile offset |
| Instants.ConvertToDisplay | index.js:45-60 | the shown wall clock is the stored instant plus the profile offset, under the browser's offset |
| Instants.DisplayInOwnZoneRoundTrip | index.js:29-60 | an instant stored against a profile and displayed in that same profile shows the wall clock entered, from any browser |
| Instants.DisplayShiftsByProfileDifference | index.js:45-60 | two profiles see one stored instant exactly as far apart as their offsets |
| Instants.KeepLocalMovesInstant | index.js:35 | keeping local time keeps the instant if and only if the offset does not change |
| Instants.StorageKeepsInstantIff | index.js:29-43 | storage keeps the instant if and only if the profile and browser offsets are equal |
| Instants.DisplayKeepsInstantIff | index.js:45-60 | the displayed value stands for the stored instant if and only if the profile and browser offsets are equal |
| Instants.HonoluluEventSeenFromBuenosAires | index.js:154 | 15:00 entered by a Honolulu owner shows as 22:00 the same day in Buenos Aires and as 15:00 in Honolulu, whatever the browsers' zones |
| Registry.Find | index.js:75 | `find` by id: a found entry is in the registry and carries that id; finding nothing means no entry carries it |
| Registry.FindReturnsFirst | index.js:75 | when an entry is the first to carry the id, `find` returns that entry, whatever later entries carry |
| Registry.FindByIndex | index.js:75 | in a registry where each id is its position, finding by id is indexing |
| Registry.AppendKeepsKeyedByIndex | index.js:63-64 | appending an entry whose id is the old length keeps every id equal to its position and leaves earlier entries in place |
| Workflow.Scheduler.constructor | index.js:2-4 | the three registries start empty and consistent |
| Workflow.Scheduler.RegisterUser | index.js:62-66 | when the city resolves, appends exactly one user with id equal to the old length and the resolved zone, and returns that user; otherwise fails with the no-zone error and changes nothing; events and requests are unchanged |
| Workflow.Scheduler.CreateEvent | index.js:68-72 | appends exactly one event with id equal to the old length, the owner's id, and the instant stored against the owner's zone; nothing else changes |
| Workflow.Scheduler.MakeRequest | index.js:74-79 | appends exactly one pending request with id equal to the old length, the requestor's and the event's ids, and the event owner's default response as its reply; nothing else changes |
| Workflow.Scheduler.ApproveRequest | index.js:135-144 | a user who does not own the event is refused and nothing changes; the owner's approval sets only that request's status to approved and its reply to the comment; no approved request becomes pending again |
| Workflow.Scheduler.UpdateUserLocation | index.js:146-148 | only that user's `timeZone` changes, to the resolved zone; when the city resolves to no zone, the no-zone error and no change; events and requests are never touched |
| Workflow.Scheduler.GrantAdmin | index.js:197 | only that user's admin flag changes, to true |
| Workflow.Scheduler.ReviewRequests | index.js:81-98 | the loop's digest is `Review` of the current registries: the viewer's name, the "mine" section over `MineSelection` and the "theirs" section over `TheirsSelection`, in request order |
| Workflow.Scheduler.AdministerRequests | index.js:100-133 | refused with the admin error exactly when the viewer is not an admin; otherwise the report is `AdminRows` over all requests |
| Workflow.FindsOfRequest | index.js:86-92 | in a consistent state the event, owner and attendee lookups of a request find the entries at the referenced positions |
| Reports.MineRowOf | index.js:86-90 | the "mine" line for a request carries its id, the event's title and owner's name, the event's stored instant as the viewer's profile wall clock under the browser offset, and the request's status and reply |
| Reports.TheirsRowOf | index.js:86-93 | the "theirs" line for a request carries its id, status and the requestor's name and comment, the event's title, and the event's stored instant as the viewer's profile wall clock under the browser offset |
| Reports.MineSelection | index.js:89-90 | the requests listed under "mine" were made by the viewer, in strictly increasing request order |
| Reports.TheirsSelection | index.js:91-93 | the requests listed under "theirs" were made by someone else for an event the viewer owns, in strictly increasing request order |
| Reports.ReviewStep | index.js:85-95 | each further request adds at most one line: to "mine" if the viewer made it, else to "theirs" if the viewer owns its event |
| Reports.ReviewSplitsRequests | index.js:85-95 | a request is listed under "mine" if and only if the viewer made it, and under "theirs" if and only if someone else made it for an event the viewer owns; each line carries the id of the request it lists |
| Reports.ReviewNeverInBoth | index.js:89-91 | no request is listed in both sections |
| Reports.AdminRows | index.js:105-130 | exactly one line per request, the k-th line built from the k-th request |
| Reports.AdminRowShowsBothZones | index.js:107-128 | a line shows the requestor's and the owner's full names, the event's stored instant as each party's wall clock (as far apart as their offsets, both under the browser offset), the raw instant as the browser's wall clock at the browser offset, and the request's status |
| Walkthrough.AnnounceLecture | index.js:151-154 | after Ben registers in Honolulu and creates the lecture, the registries hold exactly that user and that event |
| Walkthrough.AskToAttend | index.js:157-160 | after Jane registers in Buenos Aires and asks to attend, the registries hold both users and one pending request with Ben's default reply |
| Walkthrough.SettleRequest | index.js:169 | Jane's own approval, a step the walkthrough does not take, is refused; Ben's approval leaves the request approved with his comment |
| Walkthrough.FirstLook | index.js:163 | Jane's digest lists only her request, pending, at 22:00 of Ben's 15:00, with his default reply |
| Walkthrough.OwnerLook | index.js:166 | Ben's digest lists only Jane's request, under "theirs", at the 15:00 he entered, with her name, status and comment |
| Walkthrough.LastLook | index.js:169-172 | after the refusal and Ben's approval, Jane's digest shows the request approved with "Okay!" |
| Walkthrough.HonoluluLectureFromBuenosAires | index.js:151-172 | the scenario through index.js:172: pending at 22:00 for Jane, 15:00 with her comment for Ben, refused for Jane, approved with "Okay!" after |

## Left out

- The moment-timezone library. This covers the real tz database, DST rules, `moment.tz.names()` and `moment.tz.zone()`. The model takes a database of (name, population, fixed offset) entries as a parameter.
- The "lossy, DST-unaware" remark on storage (index.js:38) has no counterpart in a fixed-offset model.
- Zone aliases: the name a database entry carries is taken to be what `moment.tz.zone(name).name` returns.
- Zones.GetTimeZone: the scan compares each candidate entry's own population, not the population of the first entry with that name. The two agree when names are unique (`LookupFindsEntry`), as in a tz database. A database that repeats a name can resolve differently from the source.
- The browser's zone is one fixed offset, the `browser` field of the scheduler. It stands for both the offset `moment(instant)` uses and `moment.tz.guess()`, which agree under fixed offsets.
- `Date` and calendar decomposition (year, month, day, hour, seconds, milliseconds). Instants are whole epoch minutes, and `debugInstant` reports a wall-clock value in minutes together with the offset.
- Letter-case conversion beyond ASCII: `toUpperCase` is modelled on ASCII letters only.
- Report formatting: the template strings, the heading lines, `console.log` and `console.table`. The reports return rows instead of text.
- The `load` event wrapper and the walkthrough script beyond its first part (index.js:174-201): the reverse booking, the relocation and the admin report.
- Object references: operations take user, event and request ids instead of objects. The `users[i].id == i` invariant makes the two equivalent.
- Workflow.Scheduler.RegisterUser: a missing `defaultResponse` (undefined in JavaScript, as for the admin at index.js:196) cannot be passed; every user has a string reply.
- Workflow.Scheduler.RegisterUser: `isAdmin` starts false rather than undefined; the two are equally falsy for the admin check.
- Lookups that find nothing (`find` returning `undefined` and the source then failing on a property access) cannot happen in a valid state, so they are not modelled as errors.
