/** Instant conversion under fixed zone offsets. Time is counted in whole
    minutes since the Unix epoch; an offset is minutes east of UTC, as
    moment's `utcOffset()` reports it. */
module Instants {

  /** A moment: an absolute instant (UTC epoch minutes) together with the
      offset it is expressed in. */
  datatype Moment = Moment(utc: int, offset: int)

  /** The wall-clock reading of a moment, as epoch minutes of local civil time. */
  function Local(m: Moment): int
  {
    m.utc + m.offset
  }

  /** What `debugInstant` prints: the wall-clock fields and the offset. */
  datatype Shown = Shown(wall: int, offset: int)

  /** The absolute instant a displayed value stands for. */
  function InstantOf(s: Shown): int
  {
    s.wall - s.offset
  }

  /** `.tz(zone)` and `.utc()`: a true conversion, which keeps the instant
      and changes the offset. */
  function Tz(m: Moment, offset: int): (r: Moment)
    ensures r.utc == m.utc && r.offset == offset
  {
    Moment(m.utc, offset)
  }

  /** `.tz(zone, true)`: keep the wall clock and swap the offset, which in
      general moves the instant. */
  function TzKeepLocal(m: Moment, offset: int): (r: Moment)
    ensures Local(r) == Local(m) && r.offset == offset
  {
    Moment(Local(m) - offset, offset)
  }

  /** `debugInstant`: report the wall-clock fields and the offset; together
      they still identify the instant. */
  function DebugInstant(m: Moment): (s: Shown)
    ensures InstantOf(s) == m.utc && s.offset == m.offset
  {
    Shown(Local(m), m.offset)
  }

  /** `convertToStorage`: read the browser's wall clock, reinterpret it in
      the profile zone, and keep the UTC instant. */
  function ConvertToStorage(instant: int, profile: int, browser: int): (stored: int)
    ensures stored == instant + browser - profile
  {
    var browserInstant := Moment(instant, browser);
    var profileInstant := TzKeepLocal(browserInstant, profile);
    var storageInstant := Tz(profileInstant, 0);
    storageInstant.utc
  }

  /** `convertToDisplay`: express the stored UTC instant in the profile
      zone, then keep those wall-clock fields under the browser offset. */
  function ConvertToDisplay(stored: int, profile: int, browser: int): (s: Shown)
    ensures s.wall == stored + profile && s.offset == browser
  {
    var storageInstant := Moment(stored, 0);
    var profileInstant := Tz(storageInstant, profile);
    var browserInstant := TzKeepLocal(profileInstant, browser);
    DebugInstant(browserInstant)
  }

  /** Storing a wall-clock time entered in one browser and displaying it in
      the owner's own profile zone, from any browser, shows the wall clock
      that was entered. */
  lemma DisplayInOwnZoneRoundTrip(instant: int, profile: int, browser: int, viewerBrowser: int)
    ensures ConvertToDisplay(ConvertToStorage(instant, profile, browser), profile, viewerBrowser).wall
            == Local(Moment(instant, browser))
  {
  }

  /** Two viewers of one stored instant see wall clocks exactly as far apart
      as their profile offsets. */
  lemma DisplayShiftsByProfileDifference(stored: int, p1: int, p2: int, browser: int)
    ensures ConvertToDisplay(stored, p2, browser).wall - ConvertToDisplay(stored, p1, browser).wall == p2 - p1
  {
  }

  /** Keeping local time preserves the instant only when the offset does
      not change. */
  lemma KeepLocalMovesInstant(m: Moment, offset: int)
    ensures TzKeepLocal(m, offset).utc == m.utc <==> offset == m.offset
  {
  }

  /** Storage is a true, instant-preserving conversion only when the
      profile zone and the browser zone have the same offset. */
  lemma StorageKeepsInstantIff(instant: int, profile: int, browser: int)
    ensures ConvertToStorage(instant, profile, browser) == instant <==> profile == browser
  {
  }

  /** The displayed value stands for the stored instant only when the
      profile zone and the browser zone have the same offset. */
  lemma DisplayKeepsInstantIff(stored: int, profile: int, browser: int)
    ensures InstantOf(ConvertToDisplay(stored, profile, browser)) == stored <==> profile == browser
  {
  }

  const MinutesPerDay := 1440
  const Honolulu := -600
  const BuenosAires := -180

  /** The walkthrough: an owner in Honolulu enters 15:00 on some day; a
      viewer whose profile is in Buenos Aires sees 22:00 on that same day,
      and the owner sees 15:00, whatever their browsers' zones are. */
  lemma HonoluluEventSeenFromBuenosAires(day: int, instant: int, browser: int, viewerBrowser: int)
    requires Local(Moment(instant, browser)) == day * MinutesPerDay + 15 * 60
    ensures ConvertToDisplay(ConvertToStorage(instant, Honolulu, browser), BuenosAires, viewerBrowser).wall
            == day * MinutesPerDay + 22 * 60
    ensures ConvertToDisplay(ConvertToStorage(instant, Honolulu, browser), Honolulu, viewerBrowser).wall
            == day * MinutesPerDay + 15 * 60
  {
  }
}
