/** Zone resolution: from a free-text city to the name of a zone in the
    zone database, disambiguated by population. */
module Zones {
  import opened Failures
  import opened Text

  /** One entry of the zone database: its canonical name, its recorded
      population and its (fixed) offset from UTC in minutes. */
  datatype Zone = Zone(name: string, population: nat, offset: int)

  /** A zone is a candidate for a city when its upper-cased name contains
      the normalised city. */
  predicate Matches(z: Zone, city: string)
  {
    Contains(Upper(z.name), Normalize(city))
  }

  predicate HasMatch(db: seq<Zone>, city: string)
  {
    exists i :: 0 <= i < |db| && Matches(db[i], city)
  }

  /** The candidates, in database order (`filter` over `moment.tz.names()`). */
  function Candidates(db: seq<Zone>, city: string): (c: seq<Zone>)
    ensures |c| <= |db|
    ensures forall z :: z in c <==> z in db && Matches(z, city)
  {
    if db == [] then []
    else
      var last := db[|db| - 1];
      assert db == db[..|db| - 1] + [last];
      Candidates(db[..|db| - 1], city) + (if Matches(last, city) then [last] else [])
  }

  /** The database index of the zone resolution picks: the LAST matching
      entry among those with the highest population. */
  function BestMatch(db: seq<Zone>, city: string): (k: nat)
    requires HasMatch(db, city)
    ensures k < |db| && Matches(db[k], city)
    ensures forall j :: 0 <= j < |db| && Matches(db[j], city) ==> db[j].population <= db[k].population
    ensures forall j :: k < j < |db| && Matches(db[j], city) ==> db[j].population < db[k].population
    decreases |db|
  {
    var n := |db| - 1;
    var init := db[..n];
    assert forall j :: 0 <= j < n ==> init[j] == db[j];
    if !HasMatch(init, city) then n
    else
      var k := BestMatch(init, city);
      if Matches(db[n], city) && db[n].population >= db[k].population then n else k
  }

  /** The index the scan of `getTimeZone` over the candidates ends on: the running
      maximum is replaced whenever a later candidate is at least as populous. */
  function LastMax(c: seq<Zone>): (k: nat)
    requires |c| > 0
    ensures k < |c|
    ensures forall j :: 0 <= j < |c| ==> c[j].population <= c[k].population
    ensures forall j :: k < j < |c| ==> c[j].population < c[k].population
    decreases |c|
  {
    if |c| == 1 then 0
    else
      var k := LastMax(c[..|c| - 1]);
      if c[|c| - 1].population >= c[k].population then |c| - 1 else k
  }

  /** The result of `getTimeZone`, as a specification. */
  function ResolvedName(db: seq<Zone>, city: string): (r: Result<string>)
    ensures r.Failure? <==> !HasMatch(db, city)
    ensures r.Failure? ==> r.error == NoZoneFound
    ensures r.Success? ==> Known(db, r.value) && Contains(Upper(r.value), Normalize(city))
  {
    if HasMatch(db, city) then Success(db[BestMatch(db, city)].name) else Failure(NoZoneFound)
  }

  /** No matching entry means no candidate. */
  lemma NoMatchNoCandidates(db: seq<Zone>, city: string)
    requires !HasMatch(db, city)
    ensures Candidates(db, city) == []
  {
  }

  /** How the candidates and the pick grow when one entry is appended. */
  lemma StepOfLast(db: seq<Zone>, city: string)
    requires db != []
    ensures Candidates(db, city) == Candidates(db[..|db| - 1], city) + (if Matches(db[|db| - 1], city) then [db[|db| - 1]] else [])
    ensures HasMatch(db, city) <==> HasMatch(db[..|db| - 1], city) || Matches(db[|db| - 1], city)
  {
    var n := |db| - 1;
    assert forall j :: 0 <= j < n ==> db[..n][j] == db[j];
  }

  /** Filtering a concatenation is concatenating the filtered parts: the
      candidates keep the database's order. */
  lemma {:induction false} CandidatesOfConcat(a: seq<Zone>, b: seq<Zone>, city: string)
    ensures Candidates(a + b, city) == Candidates(a, city) + Candidates(b, city)
    decreases |b|
  {
    if b == [] {
      assert a + b == a;
    } else {
      var n := |b| - 1;
      var z := b[n];
      var tail := if Matches(z, city) then [z] else [];
      assert (a + b)[..|a + b| - 1] == a + b[..n];
      assert (a + b)[|a + b| - 1] == z;
      StepOfLast(a + b, city);
      StepOfLast(b, city);
      CandidatesOfConcat(a, b[..n], city);
      var ca, cb := Candidates(a, city), Candidates(b[..n], city);
      assert Candidates(a + b, city) == (ca + cb) + tail;
      assert Candidates(b, city) == cb + tail;
      assert (ca + cb) + tail == ca + (cb + tail);
    }
  }

  /** Filtering and then scanning for the running maximum, as `getTimeZone`
      does, ends on the entry BestMatch designates. */
  lemma {:induction false} ScanAgreesWithBestMatch(db: seq<Zone>, city: string)
    requires HasMatch(db, city)
    ensures Candidates(db, city) != []
    ensures Candidates(db, city)[LastMax(Candidates(db, city))] == db[BestMatch(db, city)]
    decreases |db|
  {
    var n := |db| - 1;
    var init := db[..n];
    var z := db[n];
    StepOfLast(db, city);
    var c, c' := Candidates(db, city), Candidates(init, city);
    if !HasMatch(init, city) {
      NoMatchNoCandidates(init, city);
      assert c == [z];
      assert BestMatch(db, city) == n;
    } else {
      ScanAgreesWithBestMatch(init, city);
      var k := BestMatch(init, city);
      assert init[k] == db[k];
      assert c'[LastMax(c')] == db[k];
      if Matches(z, city) {
        assert c[..|c| - 1] == c';
        assert c[|c| - 1] == z;
        assert LastMax(c) == if z.population >= c'[LastMax(c')].population then |c| - 1 else LastMax(c');
        assert BestMatch(db, city) == if z.population >= db[k].population then n else k;
      } else {
        assert c == c';
        assert BestMatch(db, city) == k;
      }
    }
  }

  /** `getTimeZone`: filter the database by the normalised city, fail when
      nothing is left, return a single candidate as it is, and otherwise
      keep the candidate with the highest population, the last one on a tie. */
  method GetTimeZone(db: seq<Zone>, city: string) returns (r: Result<string>)
    ensures r.Failure? <==> !HasMatch(db, city)
    ensures r.Failure? ==> r.error == NoZoneFound
    ensures |Candidates(db, city)| == 1 ==> r == Success(Candidates(db, city)[0].name)
    ensures r.Success? ==> r.value == db[BestMatch(db, city)].name
    ensures r == ResolvedName(db, city)
  {
    var timeZones := Candidates(db, city);
    if |timeZones| == 0 {
      if HasMatch(db, city) {
        ScanAgreesWithBestMatch(db, city);
      }
      return Failure(NoZoneFound);
    }
    var timeZone: string;
    if |timeZones| == 1 {
      timeZone := timeZones[0].name;
    } else {
      var population := 0;
      timeZone := "";
      ghost var k := 0;
      for i := 0 to |timeZones|
        invariant i == 0 ==> population == 0
        invariant 0 < i ==> k == LastMax(timeZones[..i])
        invariant 0 < i ==> timeZone == timeZones[k].name && population == timeZones[k].population
      {
        var zone := timeZones[i];
        assert timeZones[..i + 1][..i] == timeZones[..i];
        if zone.population >= population {
          timeZone := zone.name;
          population := zone.population;
          k := i;
        }
      }
      assert timeZones[..|timeZones|] == timeZones;
    }
    assert timeZones[0] in db;
    ScanAgreesWithBestMatch(db, city);
    return Success(timeZone);
  }

  /** Two equally populous candidates, and no other: the later one wins. */
  lemma TieGoesToLast(a: Zone, b: Zone, city: string)
    requires Matches(a, city) && Matches(b, city)
    requires a.population == b.population
    ensures ResolvedName([a, b], city) == Success(b.name)
  {
    assert Matches([a, b][1], city);
    var k := BestMatch([a, b], city);
    assert k == 1;
  }

  /** In any database, of two equally populous matches the earlier one is
      never picked. */
  lemma TieNeverGoesToEarlier(db: seq<Zone>, city: string, i: nat, j: nat)
    requires i < j < |db| && Matches(db[i], city) && Matches(db[j], city)
    requires db[i].population == db[j].population
    ensures HasMatch(db, city) && BestMatch(db, city) != i
  {
    assert Matches(db[j], city);
  }

  /** Resolution depends on the city only through its normal form: two
      cities that normalise alike resolve alike. */
  lemma {:induction false} SameNormalFormSameZone(db: seq<Zone>, c1: string, c2: string)
    requires Normalize(c1) == Normalize(c2)
    ensures ResolvedName(db, c1) == ResolvedName(db, c2)
  {
    assert forall z :: Matches(z, c1) == Matches(z, c2);
    assert HasMatch(db, c1) == HasMatch(db, c2);
    if HasMatch(db, c1) {
      BestMatchOnlyNeedsNormalForm(db, c1, c2);
    }
  }

  lemma {:induction false} BestMatchOnlyNeedsNormalForm(db: seq<Zone>, c1: string, c2: string)
    requires Normalize(c1) == Normalize(c2) && HasMatch(db, c1)
    ensures HasMatch(db, c2) && BestMatch(db, c1) == BestMatch(db, c2)
    decreases |db|
  {
    assert forall z :: Matches(z, c1) == Matches(z, c2);
    var n := |db| - 1;
    var init := db[..n];
    assert forall j :: 0 <= j < n ==> init[j] == db[j];
    assert HasMatch(init, c1) == HasMatch(init, c2);
    if HasMatch(init, c1) {
      BestMatchOnlyNeedsNormalForm(init, c1, c2);
    }
  }

  /** Letter case in the city does not matter. */
  lemma ResolvedIgnoresCase(db: seq<Zone>, city: string)
    ensures ResolvedName(db, Upper(city)) == ResolvedName(db, city)
  {
    NormalizeIgnoresCase(city);
    SameNormalFormSameZone(db, Upper(city), city);
  }

  /** The empty city matches every zone, so on a non-empty database it
      resolves to the most populous zone of all. */
  lemma EmptyCityPicksMostPopulous(db: seq<Zone>, j: nat)
    requires j < |db|
    ensures ResolvedName(db, "").Success?
    ensures db[j].population <= db[BestMatch(db, "")].population
  {
    ContainsEmpty(Upper(db[j].name));
    assert Normalize("") == "";
    assert Matches(db[j], "");
  }

  /** The name belongs to some entry of the database. */
  predicate Known(db: seq<Zone>, name: string)
  {
    exists i :: 0 <= i < |db| && db[i].name == name
  }

  /** `moment.tz.zone(name)`: the first entry carrying that name. */
  function ZoneIndex(db: seq<Zone>, name: string): (i: nat)
    requires Known(db, name)
    ensures i < |db| && db[i].name == name
    ensures forall j :: 0 <= j < i ==> db[j].name != name
    decreases |db|
  {
    if db[0].name == name then 0
    else
      assert Known(db[1..], name) by {
        var i :| 0 <= i < |db| && db[i].name == name;
        assert db[1..][i - 1] == db[i];
      }
      ZoneIndex(db[1..], name) + 1
  }

  /** No two entries share a name, as with the names of a tz database. */
  predicate UniqueNames(db: seq<Zone>)
  {
    forall i, j :: 0 <= i < j < |db| ==> db[i].name != db[j].name
  }

  /** With unique names, looking an entry up by its own name finds that
      entry, so the population `getTimeZone` reads through the lookup is the
      entry's own. */
  lemma LookupFindsEntry(db: seq<Zone>, k: nat)
    requires UniqueNames(db) && k < |db|
    ensures Known(db, db[k].name) && ZoneIndex(db, db[k].name) == k
  {
    assert db[k].name == db[k].name;
  }

  /** The fixed UTC offset, in minutes, of the zone with that name. */
  function OffsetOf(db: seq<Zone>, name: string): int
    requires Known(db, name)
  {
    db[ZoneIndex(db, name)].offset
  }
}
