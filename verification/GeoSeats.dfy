/**
 * Which seats the walk yields: exactly the declared ones, each once, with the flag of the first
 * entry that asks for it; and the transaction that keeps them or nothing.
 */
module GeoSeats {
  import opened Base
  import opened Text
  import opened GeoLookup
  import opened GeoWalk

  // ---- The first seat of a court in a city ----

  /** The flag of the first seat written for the pair, if there is one. */
  function FlagOf(seats: seq<Seat>, court: string, city: CityId): Option<bool> {
    if seats == [] then None
    else Or(FlagOf(seats[..|seats| - 1], court, city), When(Matches(seats[|seats| - 1], court, city), seats[|seats| - 1].principal))
  }

  predicate Matches(s: Seat, court: string, city: CityId) {
    s.court == court && s.city == city
  }

  function When(c: bool, flag: bool): Option<bool> {
    if c then Some(flag) else None
  }

  lemma SeatedFlag(p: Progress, s: Seat, court: string, city: CityId)
    ensures FlagOf(Seated(p, s).seats, court, city) == Or(FlagOf(p.seats, court, city), When(Matches(s, court, city), s.principal))
  {
    assert Seated(p, s).seats[..|p.seats|] == p.seats;
  }

  predicate NamesLower(names: seq<string>, court: string) {
    exists n :: n in names && CourtKey(LOWER_COURT, n) == court
  }

  lemma {:induction false} LowerCourtsFlag(names: seq<string>, x: CityId, p: Progress, court: string, city: CityId)
    ensures FlagOf(LowerCourtsAt(names, x, p).seats, court, city)
            == Or(FlagOf(p.seats, court, city), When(x == city && NamesLower(names, court), false))
  {
    if names != [] {
      var s := Seat(CourtKey(LOWER_COURT, names[0]), x, false);
      SeatedFlag(p, s, court, city);
      LowerCourtsFlag(names[1..], x, Seated(p, s), court, city);
      assert NamesLower(names, court) <==> CourtKey(LOWER_COURT, names[0]) == court || NamesLower(names[1..], court);
    }
  }

  // ---- The court list ----

  /** The place asks for this court: its own, or one of the canonical Lower Courts. */
  predicate Asks(cfg: Config, place: Place, court: string) {
    if place.courtType == LOWER_COURT then NamesLower(cfg.lowerCourts, court)
    else place.courtType != SPECIAL_COURT && CourtKey(place.courtType, place.sub) == court
  }

  function Flag(place: Place): bool {
    place.courtType != LOWER_COURT && place.entry.principal
  }

  predicate Yields(cfg: Config, maps: Maps, place: Place, court: string, city: CityId) {
    city in CitiesOf(cfg, maps, place) && Asks(cfg, place, court)
  }

  /** The flag of the first place, in walk order, that yields the pair. */
  function FirstFlag(cfg: Config, maps: Maps, places: seq<Place>, court: string, city: CityId): Option<bool> {
    if places == [] then None
    else Or(When(Yields(cfg, maps, places[0], court, city), Flag(places[0])), FirstFlag(cfg, maps, places[1..], court, city))
  }

  lemma CitySeatedFlag(cfg: Config, place: Place, x: CityId, p: Progress, court: string, city: CityId)
    ensures FlagOf(CitySeated(cfg, place, x, p).seats, court, city)
            == Or(FlagOf(p.seats, court, city), When(x == city && Asks(cfg, place, court), Flag(place)))
  {
    if place.courtType == LOWER_COURT {
      LowerCourtsFlag(cfg.lowerCourts, x, p, court, city);
    } else if place.courtType != SPECIAL_COURT {
      SeatedFlag(p, Seat(CourtKey(place.courtType, place.sub), x, place.entry.principal), court, city);
    }
  }

  lemma {:induction false} CitiesSeatedFlag(cfg: Config, place: Place, ids: seq<CityId>, p: Progress, court: string, city: CityId)
    ensures FlagOf(CitiesSeated(cfg, place, ids, p).seats, court, city)
            == Or(FlagOf(p.seats, court, city), When(city in ids && Asks(cfg, place, court), Flag(place)))
  {
    if ids != [] {
      CitySeatedFlag(cfg, place, ids[0], p, court, city);
      CitiesSeatedFlag(cfg, place, ids[1..], CitySeated(cfg, place, ids[0], p), court, city);
      assert city in ids <==> city == ids[0] || city in ids[1..];
    }
  }

  lemma {:induction false} WalkedFlag(cfg: Config, maps: Maps, places: seq<Place>, p: Progress, court: string, city: CityId)
    ensures FlagOf(Walked(cfg, maps, places, p).seats, court, city)
            == Or(FlagOf(p.seats, court, city), FirstFlag(cfg, maps, places, court, city))
  {
    if places != [] {
      CitiesSeatedFlag(cfg, places[0], CitiesOf(cfg, maps, places[0]), p, court, city);
      WalkedFlag(cfg, maps, places[1..], PlaceWalked(cfg, maps, places[0], p), court, city);
    }
  }

  lemma {:induction false} FirstFlagIsFirst(cfg: Config, maps: Maps, places: seq<Place>, court: string, city: CityId)
    ensures FirstFlag(cfg, maps, places, court, city).None?
            <==> forall i :: 0 <= i < |places| ==> !Yields(cfg, maps, places[i], court, city)
    ensures FirstFlag(cfg, maps, places, court, city).Some?
            ==> exists i :: 0 <= i < |places| && IsFirstToYield(cfg, maps, places, i, court, city)
                            && FirstFlag(cfg, maps, places, court, city).value == Flag(places[i])
  {
    if places != [] {
      var rest := places[1..];
      FirstFlagIsFirst(cfg, maps, rest, court, city);
      assert forall i :: 0 < i < |places| ==> places[i] == rest[i - 1];
      if Yields(cfg, maps, places[0], court, city) {
        assert IsFirstToYield(cfg, maps, places, 0, court, city);
      } else if FirstFlag(cfg, maps, rest, court, city).Some? {
        var i :| 0 <= i < |rest| && IsFirstToYield(cfg, maps, rest, i, court, city)
                 && FirstFlag(cfg, maps, rest, court, city).value == Flag(rest[i]);
        assert IsFirstToYield(cfg, maps, places, i + 1, court, city);
      }
    }
  }

  predicate IsFirstToYield(cfg: Config, maps: Maps, places: seq<Place>, i: nat, court: string, city: CityId) {
    && i < |places| && Yields(cfg, maps, places[i], court, city)
    && forall j :: 0 <= j < i ==> !Yields(cfg, maps, places[j], court, city)
  }

  // ---- The tehsils and the special courts ----

  predicate SeatsTehsil(cfg: Config, maps: Maps, tehsils: seq<string>, city: CityId) {
    exists t :: t in tehsils && Get(maps.global, cfg.lower(t)) == Some(city)
  }

  predicate SeatsHub(cfg: Config, maps: Maps, hubs: seq<seq<string>>, city: CityId) {
    exists h :: h in hubs && SeatsTehsil(cfg, maps, h, city)
  }

  lemma {:induction false} TehsilsFlag(cfg: Config, maps: Maps, tehsils: seq<string>, p: Progress, court: string, city: CityId)
    ensures FlagOf(TehsilsWalked(cfg, maps, tehsils, p).seats, court, city)
            == Or(FlagOf(p.seats, court, city),
                  When(SeatsTehsil(cfg, maps, tehsils, city) && NamesLower(cfg.lowerCourts, court), false))
  {
    if tehsils != [] {
      var id := Get(maps.global, cfg.lower(tehsils[0]));
      var next := if id.None? then p else LowerCourtsAt(cfg.lowerCourts, id.value, p);
      if id.Some? { LowerCourtsFlag(cfg.lowerCourts, id.value, p, court, city); }
      TehsilsFlag(cfg, maps, tehsils[1..], next, court, city);
      assert SeatsTehsil(cfg, maps, tehsils, city) <==> id == Some(city) || SeatsTehsil(cfg, maps, tehsils[1..], city);
    }
  }

  lemma {:induction false} HubsFlag(cfg: Config, maps: Maps, hubs: seq<seq<string>>, p: Progress, court: string, city: CityId)
    ensures FlagOf(HubsWalked(cfg, maps, hubs, p).seats, court, city)
            == Or(FlagOf(p.seats, court, city),
                  When(SeatsHub(cfg, maps, hubs, city) && NamesLower(cfg.lowerCourts, court), false))
  {
    if hubs != [] {
      TehsilsFlag(cfg, maps, hubs[0], p, court, city);
      HubsFlag(cfg, maps, hubs[1..], TehsilsWalked(cfg, maps, hubs[0], p), court, city);
      assert SeatsHub(cfg, maps, hubs, city) <==> SeatsTehsil(cfg, maps, hubs[0], city) || SeatsHub(cfg, maps, hubs[1..], city);
    }
  }

  predicate NamesSpecial(names: seq<string>, court: string) {
    exists n :: n in names && CourtKey(SPECIAL_COURT, n) == court
  }

  lemma {:induction false} SeatedAllFlag(own: string, ids: seq<CityId>, p: Progress, court: string, city: CityId)
    ensures FlagOf(SeatedAll(own, ids, p).seats, court, city)
            == Or(FlagOf(p.seats, court, city), When(city in ids && own == court, false))
  {
    if ids != [] {
      SeatedFlag(p, Seat(own, ids[0], false), court, city);
      SeatedAllFlag(own, ids[1..], Seated(p, Seat(own, ids[0], false)), court, city);
      assert city in ids <==> city == ids[0] || city in ids[1..];
    }
  }

  lemma {:induction false} SpecialsFlag(names: seq<string>, ids: seq<CityId>, p: Progress, court: string, city: CityId)
    ensures FlagOf(SpecialsWalked(names, ids, p).seats, court, city)
            == Or(FlagOf(p.seats, court, city), When(city in ids && NamesSpecial(names, court), false))
  {
    if names != [] {
      var own := CourtKey(SPECIAL_COURT, names[0]);
      SeatedAllFlag(own, ids, Opened(p, own), court, city);
      SpecialsFlag(names[1..], ids, SeatedAll(own, ids, Opened(p, own)), court, city);
      assert NamesSpecial(names, court) <==> own == court || NamesSpecial(names[1..], court);
    }
  }

  /** All three passes: the court list's first flag, and false for a seat only the later passes write. */
  lemma BuiltFlag(cfg: Config, maps: Maps, types: seq<CourtType>, ids: seq<CityId>, court: string, city: CityId)
    ensures FlagOf(Built(cfg, maps, types, ids).seats, court, city)
            == Or(FirstFlag(cfg, maps, Places(types), court, city),
                  When(|| (SeatsHub(cfg, maps, cfg.tehsils, city) && NamesLower(cfg.lowerCourts, court))
                       || (city in ids && NamesSpecial(cfg.specialCourts, court)), false))
  {
    var walked := Walked(cfg, maps, Places(types), START);
    var hubs := HubsWalked(cfg, maps, cfg.tehsils, walked);
    WalkedFlag(cfg, maps, Places(types), START, court, city);
    HubsFlag(cfg, maps, cfg.tehsils, walked, court, city);
    SpecialsFlag(cfg.specialCourts, ids, hubs, court, city);
  }

  // ---- The court table ----

  predicate SeatOf(seats: seq<Seat>, court: string) {
    exists i :: 0 <= i < |seats| && seats[i].court == court
  }

  /** So far a court has been created exactly for the seats written. */
  ghost predicate OnlySeated(p: Progress) {
    forall k :: k in p.courts <==> SeatOf(p.seats, k)
  }

  lemma SeatedOnly(p: Progress, s: Seat)
    requires OnlySeated(p)
    ensures OnlySeated(Seated(p, s))
  {
    var q := Seated(p, s);
    forall k ensures SeatOf(q.seats, k) <==> SeatOf(p.seats, k) || s.court == k {
      if SeatOf(p.seats, k) {
        var i :| 0 <= i < |p.seats| && p.seats[i].court == k;
        assert q.seats[i].court == k;
      }
      if s.court == k { assert q.seats[|p.seats|].court == k; }
    }
  }

  lemma {:induction false} LowerOnly(names: seq<string>, x: CityId, p: Progress)
    requires OnlySeated(p)
    ensures OnlySeated(LowerCourtsAt(names, x, p))
  {
    if names != [] {
      var s := Seat(CourtKey(LOWER_COURT, names[0]), x, false);
      SeatedOnly(p, s);
      LowerOnly(names[1..], x, Seated(p, s));
    }
  }

  lemma CityOnly(cfg: Config, place: Place, x: CityId, p: Progress)
    requires OnlySeated(p)
    ensures OnlySeated(CitySeated(cfg, place, x, p))
  {
    LowerOnly(cfg.lowerCourts, x, p);
    SeatedOnly(p, Seat(CourtKey(place.courtType, place.sub), x, place.entry.principal));
  }

  lemma {:induction false} CitiesOnly(cfg: Config, place: Place, ids: seq<CityId>, p: Progress)
    requires OnlySeated(p)
    ensures OnlySeated(CitiesSeated(cfg, place, ids, p))
  {
    if ids != [] {
      CityOnly(cfg, place, ids[0], p);
      CitiesOnly(cfg, place, ids[1..], CitySeated(cfg, place, ids[0], p));
    }
  }

  lemma {:induction false} WalkedOnly(cfg: Config, maps: Maps, places: seq<Place>, p: Progress)
    requires OnlySeated(p)
    ensures OnlySeated(Walked(cfg, maps, places, p))
  {
    if places != [] {
      CitiesOnly(cfg, places[0], CitiesOf(cfg, maps, places[0]), p);
      WalkedOnly(cfg, maps, places[1..], PlaceWalked(cfg, maps, places[0], p));
    }
  }

  lemma {:induction false} TehsilsOnly(cfg: Config, maps: Maps, tehsils: seq<string>, p: Progress)
    requires OnlySeated(p)
    ensures OnlySeated(TehsilsWalked(cfg, maps, tehsils, p))
  {
    if tehsils != [] {
      var city := Get(maps.global, cfg.lower(tehsils[0]));
      if city.Some? { LowerOnly(cfg.lowerCourts, city.value, p); }
      TehsilsOnly(cfg, maps, tehsils[1..], if city.None? then p else LowerCourtsAt(cfg.lowerCourts, city.value, p));
    }
  }

  lemma {:induction false} HubsOnly(cfg: Config, maps: Maps, hubs: seq<seq<string>>, p: Progress)
    requires OnlySeated(p)
    ensures OnlySeated(HubsWalked(cfg, maps, hubs, p))
  {
    if hubs != [] {
      TehsilsOnly(cfg, maps, hubs[0], p);
      HubsOnly(cfg, maps, hubs[1..], TehsilsWalked(cfg, maps, hubs[0], p));
    }
  }

  lemma {:induction false} SeatedAllCourts(court: string, ids: seq<CityId>, p: Progress)
    requires court in p.courts
    ensures SeatedAll(court, ids, p).courts == p.courts
  {
    if ids != [] { SeatedAllCourts(court, ids[1..], Seated(p, Seat(court, ids[0], false))); }
  }

  lemma {:induction false} SpecialsCourts(names: seq<string>, ids: seq<CityId>, p: Progress, k: string)
    ensures k in SpecialsWalked(names, ids, p).courts <==> k in p.courts || NamesSpecial(names, k)
  {
    if names != [] {
      var own := CourtKey(SPECIAL_COURT, names[0]);
      SeatedAllCourts(own, ids, Opened(p, own));
      SpecialsCourts(names[1..], ids, SeatedAll(own, ids, Opened(p, own)), k);
      assert NamesSpecial(names, k) <==> own == k || NamesSpecial(names[1..], k);
    }
  }

  lemma {:induction false} FlagHasSeat(seats: seq<Seat>, court: string, city: CityId) returns (i: nat)
    requires FlagOf(seats, court, city).Some?
    ensures i < |seats| && Matches(seats[i], court, city)
  {
    i := |seats| - 1;
    if !Matches(seats[i], court, city) { i := FlagHasSeat(seats[..i], court, city); }
  }

  lemma {:induction false} SeatHasFlag(seats: seq<Seat>, i: nat)
    requires i < |seats|
    ensures FlagOf(seats, seats[i].court, seats[i].city).Some?
  {
    if i < |seats| - 1 { SeatHasFlag(seats[..|seats| - 1], i); }
  }

  lemma SpecialsKeepSeats(names: seq<string>, ids: seq<CityId>, p: Progress, k: string)
    requires SeatOf(p.seats, k)
    ensures SeatOf(SpecialsWalked(names, ids, p).seats, k)
  {
    var i :| 0 <= i < |p.seats| && p.seats[i].court == k;
    SeatHasFlag(p.seats, i);
    SpecialsFlag(names, ids, p, k, p.seats[i].city);
    var j := FlagHasSeat(SpecialsWalked(names, ids, p).seats, k, p.seats[i].city);
  }

  lemma NewSeatsAreSpecial(names: seq<string>, ids: seq<CityId>, p: Progress, k: string)
    requires SeatOf(SpecialsWalked(names, ids, p).seats, k) && !SeatOf(p.seats, k)
    ensures NamesSpecial(names, k)
  {
    var all := SpecialsWalked(names, ids, p).seats;
    var i :| 0 <= i < |all| && all[i].court == k;
    SeatHasFlag(all, i);
    SpecialsFlag(names, ids, p, k, all[i].city);
    if FlagOf(p.seats, k, all[i].city).Some? { var j := FlagHasSeat(p.seats, k, all[i].city); }
  }

  /** A court is created exactly when the three passes seat it somewhere or it is a listed special court. */
  lemma BuiltCourts(cfg: Config, maps: Maps, types: seq<CourtType>, ids: seq<CityId>, k: string)
    ensures k in Built(cfg, maps, types, ids).courts
            <==> NamesSpecial(cfg.specialCourts, k) || SeatOf(Built(cfg, maps, types, ids).seats, k)
  {
    var walked := Walked(cfg, maps, Places(types), START);
    var hubs := HubsWalked(cfg, maps, cfg.tehsils, walked);
    WalkedOnly(cfg, maps, Places(types), START);
    HubsOnly(cfg, maps, cfg.tehsils, walked);
    SpecialsCourts(cfg.specialCourts, ids, hubs, k);
    if SeatOf(hubs.seats, k) {
      SpecialsKeepSeats(cfg.specialCourts, ids, hubs, k);
    } else if SeatOf(Built(cfg, maps, types, ids).seats, k) {
      NewSeatsAreSpecial(cfg.specialCourts, ids, hubs, k);
    }
  }

  // ---- De-duplication ----

  predicate SamePair(a: SeatRow, b: SeatRow) {
    a.courtId == b.courtId && a.cityId == b.cityId
  }

  predicate PairIn(rows: seq<SeatRow>, r: SeatRow) {
    exists i :: 0 <= i < |rows| && SamePair(rows[i], r)
  }

  function FirstOnly(rows: seq<SeatRow>): seq<SeatRow> {
    if rows == [] then []
    else
      var front, last := rows[..|rows| - 1], rows[|rows| - 1];
      if PairIn(front, last) then FirstOnly(front) else FirstOnly(front) + [last]
  }

  /** The filter with its `seen` set. */
  method DedupeSeats(rows: seq<SeatRow>) returns (kept: seq<SeatRow>)
    ensures kept == FirstOnly(rows)
  {
    kept := [];
    var seen: set<(nat, CityId)> := {};
    for i := 0 to |rows|
      invariant kept == FirstOnly(rows[..i])
      invariant forall c: nat, x: CityId :: (c, x) in seen <==> PairIn(rows[..i], SeatRow(c, x, false))
    {
      var k := (rows[i].courtId, rows[i].cityId);
      assert rows[..i + 1][..i] == rows[..i];
      PairStep(rows, i);
      if k !in seen { kept := kept + [rows[i]]; }
      seen := seen + {k};
    }
    assert rows[..|rows|] == rows;
  }

  lemma PairStep(rows: seq<SeatRow>, i: nat)
    requires i < |rows|
    ensures PairIn(rows[..i], rows[i]) <==> PairIn(rows[..i], SeatRow(rows[i].courtId, rows[i].cityId, false))
    ensures forall c: nat, x: CityId :: PairIn(rows[..i + 1], SeatRow(c, x, false))
                           <==> PairIn(rows[..i], SeatRow(c, x, false)) || (c, x) == (rows[i].courtId, rows[i].cityId)
  {
    forall c: nat, x: CityId ensures PairIn(rows[..i + 1], SeatRow(c, x, false))
                        <==> PairIn(rows[..i], SeatRow(c, x, false)) || (c, x) == (rows[i].courtId, rows[i].cityId) {
      if PairIn(rows[..i], SeatRow(c, x, false)) {
        var j :| 0 <= j < i && SamePair(rows[..i][j], SeatRow(c, x, false));
        assert rows[..i + 1][j] == rows[..i][j];
      }
      if (c, x) == (rows[i].courtId, rows[i].cityId) { assert rows[..i + 1][i] == rows[i]; }
      if PairIn(rows[..i + 1], SeatRow(c, x, false)) {
        var j :| 0 <= j < i + 1 && SamePair(rows[..i + 1][j], SeatRow(c, x, false));
        if j < i { assert rows[..i][j] == rows[..i + 1][j]; }
      }
    }
  }

  predicate PairsDistinct(rows: seq<SeatRow>) {
    forall i, j :: 0 <= i < j < |rows| ==> !SamePair(rows[i], rows[j])
  }

  function RowFlag(rows: seq<SeatRow>, c: nat, x: CityId): Option<bool> {
    if rows == [] then None
    else
      var last := rows[|rows| - 1];
      Or(RowFlag(rows[..|rows| - 1], c, x), When(last.courtId == c && last.cityId == x, last.principal))
  }

  lemma {:induction false} RowFlagIsPair(rows: seq<SeatRow>, r: SeatRow)
    ensures RowFlag(rows, r.courtId, r.cityId).Some? <==> PairIn(rows, r)
  {
    if rows != [] {
      var n := |rows| - 1;
      RowFlagIsPair(rows[..n], r);
      if PairIn(rows[..n], r) {
        var j :| 0 <= j < n && SamePair(rows[..n][j], r);
        assert rows[..n][j] == rows[j];
      }
      if PairIn(rows, r) && !SamePair(rows[n], r) {
        var j :| 0 <= j < n && SamePair(rows[j], r);
        assert rows[..n][j] == rows[j];
      }
    }
  }

  /** The kept rows: no pair twice, none lost, and each with the first flag written for its pair. */
  lemma {:induction false} KeptRows(rows: seq<SeatRow>)
    ensures PairsDistinct(FirstOnly(rows))
    ensures forall r: SeatRow :: r in FirstOnly(rows) ==> RowFlag(rows, r.courtId, r.cityId) == Some(r.principal)
    ensures forall r: SeatRow :: RowFlag(rows, r.courtId, r.cityId) == Some(r.principal) ==> r in FirstOnly(rows)
  {
    if rows != [] {
      var n := |rows| - 1;
      var front, last := rows[..n], rows[n];
      KeptRows(front);
      RowFlagIsPair(front, last);
      var kept := FirstOnly(front);
      if !PairIn(front, last) {
        forall i | 0 <= i < |kept| ensures !SamePair(kept[i], last) {
          assert kept[i] in kept;
          RowFlagIsPair(front, kept[i]);
        }
      }
    }
  }

  predicate AllStand(rows: seq<SeatRow>, seats: seq<Seat>, courts: seq<string>) {
    |rows| == |seats| && forall i :: 0 <= i < |rows| ==> Stands(rows[i], seats[i], courts)
  }

  /** A court's id and its key say the same thing. */
  lemma {:induction false} RowFlagIsFlag(rows: seq<SeatRow>, seats: seq<Seat>, courts: seq<string>, c: nat, x: CityId)
    requires Distinct(courts) && AllStand(rows, seats, courts) && c < |courts|
    ensures RowFlag(rows, c, x) == FlagOf(seats, courts[c], x)
  {
    if rows != [] {
      var n := |rows| - 1;
      assert Stands(rows[n], seats[n], courts);
      RowFlagIsFlag(rows[..n], seats[..n], courts, c, x);
    }
  }

  // ---- Courts by type and name ----

  /** With a type free of `|`, the memo key names one court. */
  lemma CourtKeyIsPair(t1: string, n1: string, t2: string, n2: string)
    requires Free(t1, '|') && Free(t2, '|') && CourtKey(t1, n1) == CourtKey(t2, n2)
    ensures t1 == t2 && n1 == n2
  {
    var k := CourtKey(t1, n1);
    SplitHead(t1, "|" + n1, '|');
    SplitHead(t2, "|" + n2, '|');
    assert k == t1 + ['|'] + ("|" + n1) == t2 + ['|'] + ("|" + n2);
    assert Split(k, '|')[0] == t1 == t2;
    assert k[|t1| + 2..] == n1 == n2;
  }

  /** With a `|` in a type two courts can share a key. */
  lemma PipeMergesCourts()
    ensures CourtKey("A|", "B") == CourtKey("A", "|B")
  {
    assert CourtKey("A|", "B") == "A|||B" == CourtKey("A", "|B");
  }

  // ---- The declared seats ----

  /** The seat (type, name, city) is declared: by the court list, by a metro tehsil, or by a special-court district. */
  ghost predicate Declared(cfg: Config, maps: Maps, types: seq<CourtType>, courtType: string, name: string, city: CityId) {
    || (exists place :: place in Places(types) && DeclaredBy(cfg, maps, place, courtType, name, city))
    || (courtType == LOWER_COURT && name in cfg.lowerCourts && SeatsHub(cfg, maps, cfg.tehsils, city))
    || (courtType == SPECIAL_COURT && name in cfg.specialCourts && SeatsDistrict(cfg, maps, city))
  }

  predicate SeatsDistrict(cfg: Config, maps: Maps, city: CityId) {
    exists d :: d in cfg.districts && DistrictSeat(cfg, maps.global, d) == Some(city)
  }

  /** No Special Court seat is ever declared by the court list. */
  predicate DeclaredBy(cfg: Config, maps: Maps, place: Place, courtType: string, name: string, city: CityId) {
    && city in CitiesOf(cfg, maps, place) && courtType == place.courtType && courtType != SPECIAL_COURT
    && if courtType == LOWER_COURT then name in cfg.lowerCourts else name == place.sub
  }

  lemma {:induction false} EntryTypes(courtType: string, sub: string, province: string, entries: seq<Entry>)
    ensures forall p :: p in EntryPlaces(courtType, sub, province, entries) ==> p.courtType == courtType
  {
    if entries != [] { EntryTypes(courtType, sub, province, entries[1..]); }
  }

  lemma {:induction false} ProvinceTypes(courtType: string, sub: string, provinces: seq<ProvinceEntries>)
    ensures forall p :: p in ProvincePlaces(courtType, sub, provinces) ==> p.courtType == courtType
  {
    if provinces != [] {
      EntryTypes(courtType, sub, provinces[0].name, provinces[0].entries);
      ProvinceTypes(courtType, sub, provinces[1..]);
    }
  }

  lemma {:induction false} SubTypes(courtType: string, subs: seq<SubCourt>)
    ensures forall p :: p in SubPlaces(courtType, subs) ==> p.courtType == courtType
  {
    if subs != [] {
      ProvinceTypes(courtType, subs[0].name, subs[0].provinces);
      SubTypes(courtType, subs[1..]);
    }
  }

  lemma {:induction false} PlacesArePipeFree(types: seq<CourtType>)
    requires PipeFreeTypes(types)
    ensures forall p :: p in Places(types) ==> Free(p.courtType, '|')
  {
    if types != [] {
      assert types[0] in types && forall t :: t in types[1..] ==> t in types;
      SubTypes(types[0].name, types[0].subs);
      PlacesArePipeFree(types[1..]);
    }
  }

  /** By key or by type and name, a place asks for the same court. */
  lemma AskedIsDeclared(cfg: Config, maps: Maps, place: Place, courtType: string, name: string, city: CityId)
    requires Free(place.courtType, '|') && Free(courtType, '|')
    ensures Yields(cfg, maps, place, CourtKey(courtType, name), city) <==> DeclaredBy(cfg, maps, place, courtType, name, city)
  {
    if Yields(cfg, maps, place, CourtKey(courtType, name), city) {
      if place.courtType == LOWER_COURT {
        var n :| n in cfg.lowerCourts && CourtKey(LOWER_COURT, n) == CourtKey(courtType, name);
        CourtKeyIsPair(LOWER_COURT, n, courtType, name);
      } else {
        CourtKeyIsPair(place.courtType, place.sub, courtType, name);
      }
    }
  }

  lemma LowerIsNamed(names: seq<string>, courtType: string, name: string)
    requires Free(courtType, '|')
    ensures NamesLower(names, CourtKey(courtType, name)) <==> courtType == LOWER_COURT && name in names
    ensures NamesSpecial(names, CourtKey(courtType, name)) <==> courtType == SPECIAL_COURT && name in names
  {
    assert Free(LOWER_COURT, '|') && Free(SPECIAL_COURT, '|');
    if NamesLower(names, CourtKey(courtType, name)) {
      var n :| n in names && CourtKey(LOWER_COURT, n) == CourtKey(courtType, name);
      CourtKeyIsPair(LOWER_COURT, n, courtType, name);
    }
    if NamesSpecial(names, CourtKey(courtType, name)) {
      var n :| n in names && CourtKey(SPECIAL_COURT, n) == CourtKey(courtType, name);
      CourtKeyIsPair(SPECIAL_COURT, n, courtType, name);
    }
  }

  /** The flag a declared seat must carry: its first place's, and false when no place declares it. */
  ghost predicate FlagIsFirst(cfg: Config, maps: Maps, types: seq<CourtType>, courtType: string, name: string, city: CityId,
                              principal: bool)
  {
    var places := Places(types);
    if exists i: nat :: IsFirstToDeclare(cfg, maps, places, i, courtType, name, city) then
      exists i: nat :: IsFirstToDeclare(cfg, maps, places, i, courtType, name, city) && principal == Flag(places[i])
    else !principal
  }

  predicate IsFirstToDeclare(cfg: Config, maps: Maps, places: seq<Place>, i: nat, courtType: string, name: string, city: CityId) {
    && i < |places| && DeclaredBy(cfg, maps, places[i], courtType, name, city)
    && forall j :: 0 <= j < i ==> !DeclaredBy(cfg, maps, places[j], courtType, name, city)
  }

  /** Without a separator in a type, a seat is built exactly when it is declared, and its flag is the first one asked for. */
  lemma PipeFreeIsDeclared(cfg: Config, maps: Maps, types: seq<CourtType>, ids: seq<CityId>,
                        courtType: string, name: string, city: CityId)
    requires PipeFreeTypes(types) && Free(courtType, '|')
    requires city in ids <==> SeatsDistrict(cfg, maps, city)
    ensures var flag := FlagOf(Built(cfg, maps, types, ids).seats, CourtKey(courtType, name), city);
            && (flag.Some? <==> Declared(cfg, maps, types, courtType, name, city))
            && (flag.Some? ==> FlagIsFirst(cfg, maps, types, courtType, name, city, flag.value))
  {
    var places, k := Places(types), CourtKey(courtType, name);
    BuiltFlag(cfg, maps, types, ids, k, city);
    PlacesArePipeFree(types);
    LowerIsNamed(cfg.lowerCourts, courtType, name);
    LowerIsNamed(cfg.specialCourts, courtType, name);
    FirstFlagIsFirst(cfg, maps, places, k, city);
    forall i | 0 <= i < |places|
      ensures Yields(cfg, maps, places[i], k, city) <==> DeclaredBy(cfg, maps, places[i], courtType, name, city)
    {
      assert places[i] in places;
      AskedIsDeclared(cfg, maps, places[i], courtType, name, city);
    }
    if FirstFlag(cfg, maps, places, k, city).Some? {
      var i :| 0 <= i < |places| && IsFirstToYield(cfg, maps, places, i, k, city)
               && FirstFlag(cfg, maps, places, k, city).value == Flag(places[i]);
      assert IsFirstToDeclare(cfg, maps, places, i, courtType, name, city);
      assert places[i] in places;
    }
  }

  /** Some court filed under this key has a declared seat in the city. */
  ghost predicate DeclaredUnder(cfg: Config, maps: Maps, types: seq<CourtType>, k: string, city: CityId) {
    exists courtType, name :: CourtKey(courtType, name) == k && Declared(cfg, maps, types, courtType, name, city)
  }

  lemma DeclareUnder(cfg: Config, maps: Maps, types: seq<CourtType>, courtType: string, name: string, city: CityId)
    requires Declared(cfg, maps, types, courtType, name, city)
    ensures DeclaredUnder(cfg, maps, types, CourtKey(courtType, name), city)
  {
  }

  lemma YieldedIsDeclared(cfg: Config, maps: Maps, types: seq<CourtType>, place: Place, k: string, city: CityId)
    requires place in Places(types) && Yields(cfg, maps, place, k, city)
    ensures DeclaredUnder(cfg, maps, types, k, city)
  {
    if place.courtType == LOWER_COURT {
      var n :| n in cfg.lowerCourts && CourtKey(LOWER_COURT, n) == k;
      assert DeclaredBy(cfg, maps, place, LOWER_COURT, n, city);
      DeclareUnder(cfg, maps, types, LOWER_COURT, n, city);
    } else {
      assert DeclaredBy(cfg, maps, place, place.courtType, place.sub, city);
      DeclareUnder(cfg, maps, types, place.courtType, place.sub, city);
    }
  }

  lemma DeclaredIsYielded(cfg: Config, maps: Maps, place: Place, courtType: string, name: string, city: CityId)
    requires DeclaredBy(cfg, maps, place, courtType, name, city)
    ensures Yields(cfg, maps, place, CourtKey(courtType, name), city)
  {
  }

  /**
   * For any court types: a seat is built for a court's key exactly when some court with that key is
   * declared in the city. With no separator in a type that court is this one, no Special Court seat comes
   * from the court list, and the flag is the first one asked for.
   */
  lemma BuiltIsDeclared(cfg: Config, maps: Maps, types: seq<CourtType>, ids: seq<CityId>,
                        courtType: string, name: string, city: CityId)
    requires city in ids <==> SeatsDistrict(cfg, maps, city)
    ensures var flag := FlagOf(Built(cfg, maps, types, ids).seats, CourtKey(courtType, name), city);
            && (flag.Some? <==> DeclaredUnder(cfg, maps, types, CourtKey(courtType, name), city))
            && (PipeFreeTypes(types) && Free(courtType, '|') ==>
                  && (flag.Some? <==> Declared(cfg, maps, types, courtType, name, city))
                  && (flag.Some? ==> FlagIsFirst(cfg, maps, types, courtType, name, city, flag.value)))
  {
    var k, places := CourtKey(courtType, name), Places(types);
    BuiltFlag(cfg, maps, types, ids, k, city);
    FirstFlagIsFirst(cfg, maps, places, k, city);
    if FlagOf(Built(cfg, maps, types, ids).seats, k, city).Some? {
      BuiltIsDeclaredUnder(cfg, maps, types, ids, k, city);
    }
    if DeclaredUnder(cfg, maps, types, k, city) {
      var t, n :| CourtKey(t, n) == k && Declared(cfg, maps, types, t, n, city);
      if place :| place in places && DeclaredBy(cfg, maps, place, t, n, city) {
        DeclaredIsYielded(cfg, maps, place, t, n, city);
        var i :| 0 <= i < |places| && places[i] == place;
        assert Yields(cfg, maps, places[i], k, city);
      }
    }
    if PipeFreeTypes(types) && Free(courtType, '|') { PipeFreeIsDeclared(cfg, maps, types, ids, courtType, name, city); }
  }

  lemma BuiltIsDeclaredUnder(cfg: Config, maps: Maps, types: seq<CourtType>, ids: seq<CityId>, k: string, city: CityId)
    requires city in ids <==> SeatsDistrict(cfg, maps, city)
    requires FlagOf(Built(cfg, maps, types, ids).seats, k, city).Some?
    ensures DeclaredUnder(cfg, maps, types, k, city)
  {
    var places := Places(types);
    BuiltFlag(cfg, maps, types, ids, k, city);
    FirstFlagIsFirst(cfg, maps, places, k, city);
    if FirstFlag(cfg, maps, places, k, city).Some? {
      var i :| 0 <= i < |places| && IsFirstToYield(cfg, maps, places, i, k, city);
      YieldedIsDeclared(cfg, maps, types, places[i], k, city);
    } else if SeatsHub(cfg, maps, cfg.tehsils, city) && NamesLower(cfg.lowerCourts, k) {
      var n :| n in cfg.lowerCourts && CourtKey(LOWER_COURT, n) == k;
      DeclareUnder(cfg, maps, types, LOWER_COURT, n, city);
    } else {
      var n :| n in cfg.specialCourts && CourtKey(SPECIAL_COURT, n) == k;
      DeclareUnder(cfg, maps, types, SPECIAL_COURT, n, city);
    }
  }

  // ---- The declared seats, in the court list's and the database's own records ----

  /** Some court type, sub-court and province of the list hold this entry. */
  predicate Listed(types: seq<CourtType>, place: Place) {
    exists t, s, p :: t in types && s in t.subs && p in s.provinces && place.entry in p.entries
                      && place == Place(t.name, s.name, p.name, place.entry)
  }

  lemma {:induction false} EntriesListed(courtType: string, sub: string, province: string, entries: seq<Entry>, place: Place)
    ensures place in EntryPlaces(courtType, sub, province, entries)
            <==> place.entry in entries && place == Place(courtType, sub, province, place.entry)
  {
    if entries != [] {
      EntriesListed(courtType, sub, province, entries[1..], place);
      assert entries == [entries[0]] + entries[1..];
    }
  }

  lemma {:induction false} ProvincesListed(courtType: string, sub: string, provinces: seq<ProvinceEntries>, place: Place)
    ensures place in ProvincePlaces(courtType, sub, provinces)
            <==> exists p :: p in provinces && place in EntryPlaces(courtType, sub, p.name, p.entries)
  {
    if provinces != [] {
      ProvincesListed(courtType, sub, provinces[1..], place);
      assert provinces == [provinces[0]] + provinces[1..];
    }
  }

  lemma {:induction false} SubsListed(courtType: string, subs: seq<SubCourt>, place: Place)
    ensures place in SubPlaces(courtType, subs)
            <==> exists s :: s in subs && place in ProvincePlaces(courtType, s.name, s.provinces)
  {
    if subs != [] {
      SubsListed(courtType, subs[1..], place);
      assert subs == [subs[0]] + subs[1..];
    }
  }

  lemma {:induction false} TypesListed(types: seq<CourtType>, place: Place)
    ensures place in Places(types) <==> exists t :: t in types && place in SubPlaces(t.name, t.subs)
  {
    if types != [] {
      TypesListed(types[1..], place);
      assert types == [types[0]] + types[1..];
    }
  }

  /** The walk meets exactly the entries of the list. */
  lemma PlacesAreListed(types: seq<CourtType>, place: Place)
    ensures place in Places(types) <==> Listed(types, place)
  {
    TypesListed(types, place);
    forall t | t in types
      ensures place in SubPlaces(t.name, t.subs)
              <==> exists s, p :: s in t.subs && p in s.provinces && place.entry in p.entries
                                  && place == Place(t.name, s.name, p.name, place.entry)
    {
      SubListed(t, place);
    }
  }

  lemma SubListed(t: CourtType, place: Place)
    ensures place in SubPlaces(t.name, t.subs)
            <==> exists s, p :: s in t.subs && p in s.provinces && place.entry in p.entries
                                && place == Place(t.name, s.name, p.name, place.entry)
  {
    SubsListed(t.name, t.subs, place);
    forall s | s in t.subs
      ensures place in ProvincePlaces(t.name, s.name, s.provinces)
              <==> exists p :: p in s.provinces && place.entry in p.entries && place == Place(t.name, s.name, p.name, place.entry)
    {
      ProvincesListed(t.name, s.name, s.provinces, place);
      forall p | p in s.provinces
        ensures place in EntryPlaces(t.name, s.name, p.name, p.entries)
                <==> place.entry in p.entries && place == Place(t.name, s.name, p.name, place.entry)
      {
        EntriesListed(t.name, s.name, p.name, p.entries, place);
      }
    }
  }

  /** It meets them level by level in the list's order. */
  lemma {:induction false} PlacesInOrder(a: seq<CourtType>, b: seq<CourtType>, t: CourtType)
    ensures Places(a + b) == Places(a) + Places(b) && Places([t]) == SubPlaces(t.name, t.subs)
  {
    if a == [] {
      assert a + b == b;
    } else {
      assert (a + b)[1..] == a[1..] + b;
      PlacesInOrder(a[1..], b, t);
      AppendAssociates(SubPlaces(a[0].name, a[0].subs), Places(a[1..]), Places(b));
    }
    assert Places([t][1..]) == [];
  }

  lemma {:induction false} SubPlacesInOrder(courtType: string, a: seq<SubCourt>, b: seq<SubCourt>, s: SubCourt)
    ensures SubPlaces(courtType, a + b) == SubPlaces(courtType, a) + SubPlaces(courtType, b)
    ensures SubPlaces(courtType, [s]) == ProvincePlaces(courtType, s.name, s.provinces)
  {
    if a == [] {
      assert a + b == b;
    } else {
      assert (a + b)[1..] == a[1..] + b;
      SubPlacesInOrder(courtType, a[1..], b, s);
      AppendAssociates(ProvincePlaces(courtType, a[0].name, a[0].provinces), SubPlaces(courtType, a[1..]), SubPlaces(courtType, b));
    }
    assert SubPlaces(courtType, [s][1..]) == [];
  }

  lemma {:induction false} ProvincePlacesInOrder(courtType: string, sub: string, a: seq<ProvinceEntries>, b: seq<ProvinceEntries>,
                                                 p: ProvinceEntries)
    ensures ProvincePlaces(courtType, sub, a + b) == ProvincePlaces(courtType, sub, a) + ProvincePlaces(courtType, sub, b)
    ensures ProvincePlaces(courtType, sub, [p]) == EntryPlaces(courtType, sub, p.name, p.entries)
  {
    if a == [] {
      assert a + b == b;
    } else {
      assert (a + b)[1..] == a[1..] + b;
      ProvincePlacesInOrder(courtType, sub, a[1..], b, p);
      AppendAssociates(EntryPlaces(courtType, sub, a[0].name, a[0].entries), ProvincePlaces(courtType, sub, a[1..]),
                       ProvincePlaces(courtType, sub, b));
    }
    assert ProvincePlaces(courtType, sub, [p][1..]) == [];
  }

  lemma {:induction false} EntryPlacesInOrder(courtType: string, sub: string, province: string, entries: seq<Entry>, i: nat)
    requires i < |entries|
    ensures |EntryPlaces(courtType, sub, province, entries)| == |entries|
    ensures EntryPlaces(courtType, sub, province, entries)[i] == Place(courtType, sub, province, entries[i])
  {
    if i > 0 { EntryPlacesInOrder(courtType, sub, province, entries[1..], i - 1); }
    else if |entries| > 1 { EntryPlacesInOrder(courtType, sub, province, entries[1..], 0); }
    else { assert EntryPlaces(courtType, sub, province, entries[1..]) == []; }
  }

  /** The city an entry asks for, under its province's canonical name. */
  ghost predicate PlaceSits(cfg: Config, provinces: seq<Province>, place: Place, city: CityId) {
    EntrySits(cfg, provinces, if place.province in cfg.provinceAlias then cfg.provinceAlias[place.province] else place.province,
              place.entry.city, city)
  }

  lemma PlaceSitsExactly(cfg: Config, provinces: seq<Province>, place: Place, city: CityId)
    requires UniqueNames(provinces)
    ensures city in CitiesOf(cfg, MapsOf(cfg, provinces), place) <==> PlaceSits(cfg, provinces, place, city)
  {
    EntryCitiesExactly(cfg, provinces, Canonical(cfg, place.province), place.entry.city);
  }

  ghost predicate ListedBy(cfg: Config, provinces: seq<Province>, place: Place, courtType: string, name: string, city: CityId) {
    && PlaceSits(cfg, provinces, place, city) && courtType == place.courtType && courtType != "Special Court"
    && if courtType == "Lower Court" then name in cfg.lowerCourts else name == place.sub
  }

  ghost predicate TehsilSits(cfg: Config, provinces: seq<Province>, city: CityId) {
    exists h, t :: h in cfg.tehsils && t in h && CountryCity(cfg.lower, provinces, cfg.lower(t), city)
  }

  ghost predicate SomeDistrictSits(cfg: Config, provinces: seq<Province>, city: CityId) {
    exists d :: d in cfg.districts && DistrictSits(cfg, provinces, d, city)
  }

  /** What `Declared` says, without the maps. */
  ghost predicate DeclaredIn(cfg: Config, provinces: seq<Province>, types: seq<CourtType>, courtType: string, name: string,
                             city: CityId)
  {
    || (exists place :: Listed(types, place) && ListedBy(cfg, provinces, place, courtType, name, city))
    || (courtType == "Lower Court" && name in cfg.lowerCourts && TehsilSits(cfg, provinces, city))
    || (courtType == "Special Court" && name in cfg.specialCourts && SomeDistrictSits(cfg, provinces, city))
  }

  lemma TehsilsExactly(cfg: Config, provinces: seq<Province>, city: CityId)
    ensures SeatsHub(cfg, MapsOf(cfg, provinces), cfg.tehsils, city) <==> TehsilSits(cfg, provinces, city)
  {
    var maps := MapsOf(cfg, provinces);
    forall t: string ensures Get(maps.global, cfg.lower(t)) == Some(city) <==> CountryCity(cfg.lower, provinces, cfg.lower(t), city) {
      CountryExactly(cfg.lower, provinces, cfg.lower(t), city);
    }
    if h, t :| h in cfg.tehsils && t in h && CountryCity(cfg.lower, provinces, cfg.lower(t), city) {
      assert SeatsTehsil(cfg, maps, h, city);
    }
  }

  lemma DistrictsExactly(cfg: Config, provinces: seq<Province>, city: CityId)
    ensures SeatsDistrict(cfg, MapsOf(cfg, provinces), city) <==> SomeDistrictSits(cfg, provinces, city)
  {
    forall d: string ensures DistrictSeat(cfg, GlobalMap(cfg.lower, provinces), d) == Some(city) <==> DistrictSits(cfg, provinces, d, city) {
      DistrictExactly(cfg, provinces, d, city);
    }
  }

  lemma ListedByExactly(cfg: Config, provinces: seq<Province>, place: Place, courtType: string, name: string, city: CityId)
    requires UniqueNames(provinces)
    ensures DeclaredBy(cfg, MapsOf(cfg, provinces), place, courtType, name, city)
            <==> ListedBy(cfg, provinces, place, courtType, name, city)
  {
    PlaceSitsExactly(cfg, provinces, place, city);
  }

  /** A seat is declared through the maps exactly when the records declare it. */
  lemma DeclaredExactly(cfg: Config, provinces: seq<Province>, types: seq<CourtType>, courtType: string, name: string, city: CityId)
    requires UniqueNames(provinces)
    ensures Declared(cfg, MapsOf(cfg, provinces), types, courtType, name, city)
            <==> DeclaredIn(cfg, provinces, types, courtType, name, city)
  {
    TehsilsExactly(cfg, provinces, city);
    DistrictsExactly(cfg, provinces, city);
    forall place
      ensures place in Places(types) && DeclaredBy(cfg, MapsOf(cfg, provinces), place, courtType, name, city)
              <==> Listed(types, place) && ListedBy(cfg, provinces, place, courtType, name, city)
    {
      PlacesAreListed(types, place);
      ListedByExactly(cfg, provinces, place, courtType, name, city);
    }
  }

  ghost predicate IsFirstToList(cfg: Config, provinces: seq<Province>, places: seq<Place>, i: nat, courtType: string, name: string,
                                city: CityId)
  {
    && i < |places| && ListedBy(cfg, provinces, places[i], courtType, name, city)
    && forall j :: 0 <= j < i ==> !ListedBy(cfg, provinces, places[j], courtType, name, city)
  }

  /** The first entry, in walk order, that declares the seat gives its flag; Lower Courts and the later passes give false. */
  ghost predicate FlagIsFirstIn(cfg: Config, provinces: seq<Province>, types: seq<CourtType>, courtType: string, name: string,
                                city: CityId, principal: bool)
  {
    var places := Places(types);
    if exists i: nat :: IsFirstToList(cfg, provinces, places, i, courtType, name, city) then
      exists i: nat :: IsFirstToList(cfg, provinces, places, i, courtType, name, city)
                       && principal == (courtType != "Lower Court" && places[i].entry.principal)
    else !principal
  }

  lemma FirstToListExactly(cfg: Config, provinces: seq<Province>, places: seq<Place>, i: nat, courtType: string, name: string, city: CityId)
    requires UniqueNames(provinces)
    ensures IsFirstToDeclare(cfg, MapsOf(cfg, provinces), places, i, courtType, name, city)
            <==> IsFirstToList(cfg, provinces, places, i, courtType, name, city)
  {
    forall j | 0 <= j < |places|
      ensures DeclaredBy(cfg, MapsOf(cfg, provinces), places[j], courtType, name, city)
              <==> ListedBy(cfg, provinces, places[j], courtType, name, city)
    {
      ListedByExactly(cfg, provinces, places[j], courtType, name, city);
    }
  }

  lemma FlagExactly(cfg: Config, provinces: seq<Province>, types: seq<CourtType>, courtType: string, name: string, city: CityId,
                    principal: bool)
    requires UniqueNames(provinces) && FlagIsFirst(cfg, MapsOf(cfg, provinces), types, courtType, name, city, principal)
    ensures FlagIsFirstIn(cfg, provinces, types, courtType, name, city, principal)
  {
    var places := Places(types);
    forall i: nat
      ensures IsFirstToDeclare(cfg, MapsOf(cfg, provinces), places, i, courtType, name, city)
              <==> IsFirstToList(cfg, provinces, places, i, courtType, name, city)
    {
      FirstToListExactly(cfg, provinces, places, i, courtType, name, city);
    }
    if i: nat :| IsFirstToDeclare(cfg, MapsOf(cfg, provinces), places, i, courtType, name, city) && principal == Flag(places[i]) {
      assert IsFirstToList(cfg, provinces, places, i, courtType, name, city);
    }
  }

  // ---- The transaction ----

  /** The geography, court and seat tables, truncated and rebuilt in one transaction. */
  class GeoDatabase {
    var geography: seq<Province>
    var courts: seq<CourtRow>
    var seats: seq<SeatRow>
  }

  /** Every entry of the court list and every special-court district resolves. */
  predicate EverythingResolves(cfg: Config, maps: Maps, types: seq<CourtType>) {
    && (forall place :: place in Places(types) ==> CitiesOf(cfg, maps, place) != [])
    && (forall d :: d in cfg.districts ==> DistrictSeat(cfg, maps.global, d).Some?)
  }

  /** A listed special court, seated or not. */
  predicate ListedSpecial(cfg: Config, c: CourtRow) {
    c.courtType == SPECIAL_COURT && c.name in cfg.specialCourts
  }

  /**
   * The tables refine the declared set: the court table holds each court with a declared seat and each
   * listed special court, once and no other; the seat table each declared seat, once and no other, with
   * its first flag.
   */
  ghost predicate IsSeeded(cfg: Config, maps: Maps, types: seq<CourtType>, courts: seq<CourtRow>, seats: seq<SeatRow>) {
    && Distinct(courts) && PairsDistinct(seats)
    && (forall c: CourtRow :: c in courts
          <==> ListedSpecial(cfg, c) || CourtDeclared(cfg, maps, types, c))
    && (forall r :: r in seats ==> r.courtId < |courts| && HasFirstFlag(cfg, maps, types, courts[r.courtId], r))
    && (forall c: CourtRow, x: CityId :: Declared(cfg, maps, types, c.courtType, c.name, x) <==> HasSeat(courts, seats, c, x))
  }

  /** The court has a declared seat in some city. */
  ghost predicate CourtDeclared(cfg: Config, maps: Maps, types: seq<CourtType>, c: CourtRow) {
    exists x: CityId :: Declared(cfg, maps, types, c.courtType, c.name, x)
  }

  ghost predicate HasFirstFlag(cfg: Config, maps: Maps, types: seq<CourtType>, c: CourtRow, r: SeatRow) {
    FlagIsFirst(cfg, maps, types, c.courtType, c.name, r.cityId, r.principal)
  }

  /** Some seat row places the court in the city. */
  predicate HasSeat(courts: seq<CourtRow>, seats: seq<SeatRow>, c: CourtRow, x: CityId) {
    exists r :: r in seats && r.courtId < |courts| && courts[r.courtId] == c && r.cityId == x
  }

  /**
   * The same, in the records: the court table holds each court with a declared seat and each listed special
   * court, once and no other; the seat table each declared seat, once and no other, with its first flag.
   */
  ghost predicate IsSeededIn(cfg: Config, provinces: seq<Province>, types: seq<CourtType>, courts: seq<CourtRow>, seats: seq<SeatRow>) {
    && Distinct(courts) && PairsDistinct(seats)
    && (forall c: CourtRow :: c in courts
          <==> (c.courtType == "Special Court" && c.name in cfg.specialCourts) || CourtDeclaredIn(cfg, provinces, types, c))
    && (forall r :: r in seats ==> r.courtId < |courts| && HasFirstFlagIn(cfg, provinces, types, courts[r.courtId], r))
    && (forall c: CourtRow, x: CityId :: DeclaredIn(cfg, provinces, types, c.courtType, c.name, x) <==> HasSeat(courts, seats, c, x))
  }

  ghost predicate CourtDeclaredIn(cfg: Config, provinces: seq<Province>, types: seq<CourtType>, c: CourtRow) {
    exists x: CityId :: DeclaredIn(cfg, provinces, types, c.courtType, c.name, x)
  }

  ghost predicate HasFirstFlagIn(cfg: Config, provinces: seq<Province>, types: seq<CourtType>, c: CourtRow, r: SeatRow) {
    FlagIsFirstIn(cfg, provinces, types, c.courtType, c.name, r.cityId, r.principal)
  }

  lemma SeededInRecords(cfg: Config, provinces: seq<Province>, types: seq<CourtType>, courts: seq<CourtRow>, seats: seq<SeatRow>)
    requires UniqueNames(provinces) && IsSeeded(cfg, MapsOf(cfg, provinces), types, courts, seats)
    ensures IsSeededIn(cfg, provinces, types, courts, seats)
  {
    var maps := MapsOf(cfg, provinces);
    forall c: CourtRow, x: CityId
      ensures Declared(cfg, maps, types, c.courtType, c.name, x) <==> DeclaredIn(cfg, provinces, types, c.courtType, c.name, x)
    {
      DeclaredExactly(cfg, provinces, types, c.courtType, c.name, x);
    }
    forall c: CourtRow ensures CourtDeclared(cfg, maps, types, c) <==> CourtDeclaredIn(cfg, provinces, types, c) {
      if CourtDeclaredIn(cfg, provinces, types, c) {
        var x: CityId :| DeclaredIn(cfg, provinces, types, c.courtType, c.name, x);
        assert Declared(cfg, maps, types, c.courtType, c.name, x);
      }
    }
    forall r | r in seats ensures HasFirstFlagIn(cfg, provinces, types, courts[r.courtId], r) {
      var c := courts[r.courtId];
      assert HasFirstFlag(cfg, maps, types, c, r);
      FlagExactly(cfg, provinces, types, c.courtType, c.name, r.cityId, r.principal);
    }
  }

  /** Every entry of the court list and every special-court district sits somewhere. */
  ghost predicate EverythingSits(cfg: Config, provinces: seq<Province>, types: seq<CourtType>) {
    && (forall place :: Listed(types, place) ==> exists id: CityId :: PlaceSits(cfg, provinces, place, id))
    && (forall d :: d in cfg.districts ==> exists id: CityId :: DistrictSits(cfg, provinces, d, id))
  }

  lemma PlaceResolves(cfg: Config, provinces: seq<Province>, place: Place)
    requires UniqueNames(provinces)
    ensures CitiesOf(cfg, MapsOf(cfg, provinces), place) != [] <==> exists id: CityId :: PlaceSits(cfg, provinces, place, id)
  {
    var ids := CitiesOf(cfg, MapsOf(cfg, provinces), place);
    if ids != [] {
      PlaceSitsExactly(cfg, provinces, place, ids[0]);
      assert ids[0] in ids;
    }
    if id: CityId :| PlaceSits(cfg, provinces, place, id) { PlaceSitsExactly(cfg, provinces, place, id); }
  }

  lemma DistrictResolves(cfg: Config, provinces: seq<Province>, d: string)
    ensures DistrictSeat(cfg, GlobalMap(cfg.lower, provinces), d).Some? <==> exists id: CityId :: DistrictSits(cfg, provinces, d, id)
  {
    var seat := DistrictSeat(cfg, GlobalMap(cfg.lower, provinces), d);
    if seat.Some? { DistrictExactly(cfg, provinces, d, seat.value); }
    if id: CityId :| DistrictSits(cfg, provinces, d, id) { DistrictExactly(cfg, provinces, d, id); }
  }

  lemma ResolvesExactly(cfg: Config, provinces: seq<Province>, types: seq<CourtType>)
    requires UniqueNames(provinces)
    ensures EverythingResolves(cfg, MapsOf(cfg, provinces), types) <==> EverythingSits(cfg, provinces, types)
  {
    forall place
      ensures place in Places(types) <==> Listed(types, place)
      ensures CitiesOf(cfg, MapsOf(cfg, provinces), place) != [] <==> exists id: CityId :: PlaceSits(cfg, provinces, place, id)
    {
      PlacesAreListed(types, place);
      PlaceResolves(cfg, provinces, place);
    }
    forall d ensures DistrictSeat(cfg, GlobalMap(cfg.lower, provinces), d).Some? <==> exists id: CityId :: DistrictSits(cfg, provinces, d, id) {
      DistrictResolves(cfg, provinces, d);
    }
  }

  /** Whatever the court types are called: each court key and each (court, city) once, first flag kept, by key. */
  ghost predicate IsSeededByKey(cfg: Config, maps: Maps, types: seq<CourtType>, courts: seq<CourtRow>, seats: seq<SeatRow>) {
    && PairsDistinct(seats) && (forall r :: r in seats ==> r.courtId < |courts|)
    && (forall i, j :: 0 <= i < j < |courts| ==> KeyAt(courts, i) != KeyAt(courts, j))
    && (forall k :: CourtWithKey(courts, k)
          <==> NamesSpecial(cfg.specialCourts, k) || KeyDeclared(cfg, maps, types, k))
    && (forall r: SeatRow :: r in seats
          <==> r.courtId < |courts| && DeclaredFlag(cfg, maps, types, KeyAt(courts, r.courtId), r.cityId) == Some(r.principal))
  }

  /** The three passes declare a seat for the key in some city. */
  ghost predicate KeyDeclared(cfg: Config, maps: Maps, types: seq<CourtType>, k: string) {
    exists x: CityId :: DeclaredFlag(cfg, maps, types, k, x).Some?
  }

  predicate CourtWithKey(courts: seq<CourtRow>, k: string) {
    exists i :: 0 <= i < |courts| && KeyAt(courts, i) == k
  }

  function KeyAt(courts: seq<CourtRow>, i: nat): string
    requires i < |courts|
  {
    CourtKey(courts[i].courtType, courts[i].name)
  }

  /** The flag the three passes declare for a court key and a city. */
  ghost function DeclaredFlag(cfg: Config, maps: Maps, types: seq<CourtType>, court: string, city: CityId): Option<bool> {
    Or(FirstFlag(cfg, maps, Places(types), court, city),
       When(|| (SeatsHub(cfg, maps, cfg.tehsils, city) && NamesLower(cfg.lowerCourts, court))
            || (SeatsDistrict(cfg, maps, city) && NamesSpecial(cfg.specialCourts, court)), false))
  }

  /** `main`: false is the throw that rolls everything back. */
  method SeedGeo(cfg: Config, provinces: seq<Province>, types: seq<CourtType>, allowUnresolved: bool, db: GeoDatabase)
    returns (ok: bool)
    requires UniqueNames(provinces)
    modifies db
    ensures ok <==> allowUnresolved || EverythingSits(cfg, provinces, types)
    ensures ok ==> db.geography == provinces && IsSeededByKey(cfg, MapsOf(cfg, provinces), types, db.courts, db.seats)
    ensures ok && PipeFreeTypes(types) ==> IsSeededIn(cfg, provinces, types, db.courts, db.seats)
    ensures !ok ==> db.geography == old(db.geography) && db.courts == old(db.courts) && db.seats == old(db.seats)
  {
    var saved := (db.geography, db.courts, db.seats);
    db.geography, db.courts, db.seats := provinces, [], [];
    var maps := BuildMaps(cfg.lower, provinces);
    var courts, rows, complete := BuildSeats(cfg, maps, types);
    db.courts := courts;
    if rows != [] {
      var deduped := DedupeSeats(rows);
      db.seats := deduped;
    }
    ResolvesExactly(cfg, provinces, types);
    if PipeFreeTypes(types) { SeededInRecords(cfg, provinces, types, courts, FirstOnly(rows)); }
    ok := allowUnresolved || complete;
    if !ok { db.geography, db.courts, db.seats := saved.0, saved.1, saved.2; }
  }

  /** The three passes; `complete` when nothing was left unresolved. */
  method BuildSeats(cfg: Config, maps: Maps, types: seq<CourtType>)
    returns (courts: seq<CourtRow>, rows: seq<SeatRow>, complete: bool)
    ensures complete <==> EverythingResolves(cfg, maps, types)
    ensures IsSeededByKey(cfg, maps, types, courts, FirstOnly(rows))
    ensures PipeFreeTypes(types) ==> IsSeeded(cfg, maps, types, courts, FirstOnly(rows))
  {
    ghost var ids;
    courts, rows, complete, ids := RunPasses(cfg, maps, types);
    SeededByKey(cfg, maps, types, ids, courts, rows);
    if PipeFreeTypes(types) { SeededTables(cfg, maps, types, ids, courts, rows); }
  }

  method RunPasses(cfg: Config, maps: Maps, types: seq<CourtType>)
    returns (courts: seq<CourtRow>, rows: seq<SeatRow>, complete: bool, ghost ids: seq<CityId>)
    ensures forall x :: x in ids <==> SeatsDistrict(cfg, maps, x)
    ensures IsBuilt(Built(cfg, maps, types, ids), courts, rows)
    ensures PipeFreeTypes(types) ==> PipeFreeCourts(courts)
    ensures complete <==> EverythingResolves(cfg, maps, types)
  {
    var builder := new SeatBuilder(cfg, maps, PipeFreeTypes(types));
    builder.WalkCourts(types);
    builder.WalkHubs();
    var seatIds, unresolvedSpecial := ResolveSpecialSeats(cfg, maps.global);
    builder.WalkSpecials(seatIds);
    NothingLeftOver(cfg, maps, types, seatIds, unresolvedSpecial);
    courts, rows, ids := builder.courts, builder.rows, seatIds;
    complete := builder.unresolved == map[] && unresolvedSpecial == [];
  }

  lemma NothingLeftOver(cfg: Config, maps: Maps, types: seq<CourtType>, ids: seq<CityId>, unresolvedSpecial: seq<string>)
    requires forall d :: d in unresolvedSpecial <==> d in cfg.districts && DistrictSeat(cfg, maps.global, d) == None
    ensures Built(cfg, maps, types, ids).unresolved == map[] && unresolvedSpecial == [] <==> EverythingResolves(cfg, maps, types)
  {
    UnresolvedExactly(cfg, maps, types, ids);
    assert unresolvedSpecial != [] ==> unresolvedSpecial[0] in unresolvedSpecial;
  }

  /** The tables stand for this progress. */
  ghost predicate IsBuilt(p: Progress, courts: seq<CourtRow>, rows: seq<SeatRow>) {
    Distinct(p.courts) && AllStand(rows, p.seats, p.courts) && Keyed(courts, p.courts)
  }

  // ---- What was left unresolved ----

  lemma {:induction false} CitiesKeepUnresolved(cfg: Config, place: Place, ids: seq<CityId>, p: Progress)
    ensures CitiesSeated(cfg, place, ids, p).unresolved == p.unresolved
  {
    if ids != [] {
      LowerKeepsUnresolved(cfg.lowerCourts, ids[0], p);
      CitiesKeepUnresolved(cfg, place, ids[1..], CitySeated(cfg, place, ids[0], p));
    }
  }

  lemma {:induction false} LowerKeepsUnresolved(names: seq<string>, x: CityId, p: Progress)
    ensures LowerCourtsAt(names, x, p).unresolved == p.unresolved
  {
    if names != [] { LowerKeepsUnresolved(names[1..], x, Seated(p, Seat(CourtKey(LOWER_COURT, names[0]), x, false))); }
  }

  lemma {:induction false} TehsilsKeepUnresolved(cfg: Config, maps: Maps, tehsils: seq<string>, p: Progress)
    ensures TehsilsWalked(cfg, maps, tehsils, p).unresolved == p.unresolved
  {
    if tehsils != [] {
      var city := Get(maps.global, cfg.lower(tehsils[0]));
      if city.Some? { LowerKeepsUnresolved(cfg.lowerCourts, city.value, p); }
      TehsilsKeepUnresolved(cfg, maps, tehsils[1..], if city.None? then p else LowerCourtsAt(cfg.lowerCourts, city.value, p));
    }
  }

  lemma {:induction false} HubsKeepUnresolved(cfg: Config, maps: Maps, hubs: seq<seq<string>>, p: Progress)
    ensures HubsWalked(cfg, maps, hubs, p).unresolved == p.unresolved
  {
    if hubs != [] {
      TehsilsKeepUnresolved(cfg, maps, hubs[0], p);
      HubsKeepUnresolved(cfg, maps, hubs[1..], TehsilsWalked(cfg, maps, hubs[0], p));
    }
  }

  lemma {:induction false} SeatedAllKeepsUnresolved(court: string, ids: seq<CityId>, p: Progress)
    ensures SeatedAll(court, ids, p).unresolved == p.unresolved
  {
    if ids != [] { SeatedAllKeepsUnresolved(court, ids[1..], Seated(p, Seat(court, ids[0], false))); }
  }

  lemma {:induction false} SpecialsKeepUnresolved(names: seq<string>, ids: seq<CityId>, p: Progress)
    ensures SpecialsWalked(names, ids, p).unresolved == p.unresolved
  {
    if names != [] {
      var own := CourtKey(SPECIAL_COURT, names[0]);
      SeatedAllKeepsUnresolved(own, ids, Opened(p, own));
      SpecialsKeepUnresolved(names[1..], ids, SeatedAll(own, ids, Opened(p, own)));
    }
  }

  /** The city is noted under its canonical province exactly when some entry names it and resolves nowhere. */
  predicate NotedCity(m: map<string, set<string>>, province: string, city: string) {
    province in m && city in m[province]
  }

  ghost predicate LeftOver(cfg: Config, maps: Maps, places: seq<Place>, province: string, city: string) {
    exists place :: place in places && CitiesOf(cfg, maps, place) == []
                    && Canonical(cfg, place.province) == province && place.entry.city == city
  }

  lemma {:induction false} WalkedUnresolved(cfg: Config, maps: Maps, places: seq<Place>, p: Progress, province: string, city: string)
    ensures NotedCity(Walked(cfg, maps, places, p).unresolved, province, city)
            <==> NotedCity(p.unresolved, province, city) || LeftOver(cfg, maps, places, province, city)
    ensures (forall k :: k in p.unresolved ==> p.unresolved[k] != {})
            ==> forall k :: k in Walked(cfg, maps, places, p).unresolved ==> Walked(cfg, maps, places, p).unresolved[k] != {}
  {
    if places != [] {
      var ids := CitiesOf(cfg, maps, places[0]);
      CitiesKeepUnresolved(cfg, places[0], ids, p);
      WalkedUnresolved(cfg, maps, places[1..], PlaceWalked(cfg, maps, places[0], p), province, city);
      assert LeftOver(cfg, maps, places, province, city)
          <==> || LeftOver(cfg, maps, places[1..], province, city)
               || (ids == [] && Canonical(cfg, places[0].province) == province && places[0].entry.city == city);
    }
  }

  /** `unresolved` names exactly the (province, city) pairs of entries that resolve nowhere, Special Court ones included. */
  lemma UnresolvedExactly(cfg: Config, maps: Maps, types: seq<CourtType>, ids: seq<CityId>)
    ensures var m := Built(cfg, maps, types, ids).unresolved;
            && (forall province, city :: NotedCity(m, province, city) <==> LeftOver(cfg, maps, Places(types), province, city))
            && (m == map[] <==> forall place :: place in Places(types) ==> CitiesOf(cfg, maps, place) != [])
  {
    var places := Places(types);
    var walked := Walked(cfg, maps, places, START);
    HubsKeepUnresolved(cfg, maps, cfg.tehsils, walked);
    SpecialsKeepUnresolved(cfg.specialCourts, ids, HubsWalked(cfg, maps, cfg.tehsils, walked));
    var m := Built(cfg, maps, types, ids).unresolved;
    forall province, city ensures NotedCity(m, province, city) <==> LeftOver(cfg, maps, places, province, city) {
      WalkedUnresolved(cfg, maps, places, START, province, city);
    }
    WalkedUnresolved(cfg, maps, places, START, "", "");
    if m != map[] {
      var k :| k in m;
      var city :| city in m[k];
      assert NotedCity(m, k, city);
    }
    forall place | place in places && CitiesOf(cfg, maps, place) == [] ensures m != map[] {
      assert NotedCity(m, Canonical(cfg, place.province), place.entry.city);
    }
  }

  // ---- The tables ----

  predicate Keyed(courts: seq<CourtRow>, keys: seq<string>) {
    |courts| == |keys| && forall i :: 0 <= i < |courts| ==> IsKeyOf(keys[i], courts[i])
  }

  /** A kept row's court and city carry the first flag. */
  lemma RowIsDeclared(cfg: Config, maps: Maps, types: seq<CourtType>, ids: seq<CityId>,
                      courts: seq<CourtRow>, rows: seq<SeatRow>, r: SeatRow)
    requires PipeFreeTypes(types) && (r.cityId in ids <==> SeatsDistrict(cfg, maps, r.cityId))
    requires IsBuilt(Built(cfg, maps, types, ids), courts, rows) && PipeFreeCourts(courts)
    requires RowFlag(rows, r.courtId, r.cityId) == Some(r.principal)
    ensures r.courtId < |courts|
    ensures var c := courts[r.courtId];
            && HasFirstFlag(cfg, maps, types, c, r) && Declared(cfg, maps, types, c.courtType, c.name, r.cityId)
  {
    var p := Built(cfg, maps, types, ids);
    RowFlagIsPair(rows, r);
    var i :| 0 <= i < |rows| && SamePair(rows[i], r);
    assert Stands(rows[i], p.seats[i], p.courts);
    var c := courts[r.courtId];
    assert IsKeyOf(p.courts[r.courtId], c);
    RowFlagIsFlag(rows, p.seats, p.courts, r.courtId, r.cityId);
    PipeFreeIsDeclared(cfg, maps, types, ids, c.courtType, c.name, r.cityId);
  }

  /** A declared seat has a kept row. */
  lemma DeclaredHasRow(cfg: Config, maps: Maps, types: seq<CourtType>, ids: seq<CityId>,
                       courts: seq<CourtRow>, rows: seq<SeatRow>, c: CourtRow, x: CityId)
    requires PipeFreeTypes(types) && (x in ids <==> SeatsDistrict(cfg, maps, x))
    requires IsBuilt(Built(cfg, maps, types, ids), courts, rows) && PipeFreeCourts(courts)
    requires Declared(cfg, maps, types, c.courtType, c.name, x)
    ensures HasSeat(courts, FirstOnly(rows), c, x)
  {
    var p := Built(cfg, maps, types, ids);
    PlacesArePipeFree(types);
    assert Free(LOWER_COURT, '|') && Free(SPECIAL_COURT, '|');
    PipeFreeIsDeclared(cfg, maps, types, ids, c.courtType, c.name, x);
    var i := FlagHasSeat(p.seats, CourtKey(c.courtType, c.name), x);
    var id := rows[i].courtId;
    assert Stands(rows[i], p.seats[i], p.courts) && IsKeyOf(p.courts[id], courts[id]);
    CourtKeyIsPair(c.courtType, c.name, courts[id].courtType, courts[id].name);
    assert courts[id] == c;
    RowFlagIsFlag(rows, p.seats, p.courts, id, x);
    KeptRows(rows);
    assert SeatRow(id, x, RowFlag(rows, id, x).value) in FirstOnly(rows);
  }

  lemma SeededByKey(cfg: Config, maps: Maps, types: seq<CourtType>, ids: seq<CityId>,
                    courts: seq<CourtRow>, rows: seq<SeatRow>)
    requires forall x :: x in ids <==> SeatsDistrict(cfg, maps, x)
    requires IsBuilt(Built(cfg, maps, types, ids), courts, rows)
    ensures IsSeededByKey(cfg, maps, types, courts, FirstOnly(rows))
  {
    var p := Built(cfg, maps, types, ids);
    KeptRows(rows);
    forall i | 0 <= i < |courts| ensures KeyAt(courts, i) == p.courts[i] { assert IsKeyOf(p.courts[i], courts[i]); }
    forall c: nat, x: CityId | c < |courts|
      ensures RowFlag(rows, c, x) == DeclaredFlag(cfg, maps, types, KeyAt(courts, c), x)
    {
      RowFlagIsFlag(rows, p.seats, p.courts, c, x);
      BuiltFlag(cfg, maps, types, ids, p.courts[c], x);
    }
    forall r | r in FirstOnly(rows) ensures r.courtId < |courts| { KeptRowHasCourt(rows, p.seats, p.courts, r); }
    forall k ensures CourtWithKey(courts, k) <==> NamesSpecial(cfg.specialCourts, k) || KeyDeclared(cfg, maps, types, k) {
      KeyedCourt(courts, p.courts, k);
      BuiltCourts(cfg, maps, types, ids, k);
      SeatedIsKeyDeclared(cfg, maps, types, ids, k);
    }
  }

  lemma KeyedCourt(courts: seq<CourtRow>, keys: seq<string>, k: string)
    requires Keyed(courts, keys)
    ensures CourtWithKey(courts, k) <==> k in keys
  {
    forall i | 0 <= i < |courts| ensures KeyAt(courts, i) == keys[i] { assert IsKeyOf(keys[i], courts[i]); }
  }

  lemma SeatedIsKeyDeclared(cfg: Config, maps: Maps, types: seq<CourtType>, ids: seq<CityId>, k: string)
    requires forall x :: x in ids <==> SeatsDistrict(cfg, maps, x)
    ensures SeatOf(Built(cfg, maps, types, ids).seats, k) <==> KeyDeclared(cfg, maps, types, k)
  {
    var seats := Built(cfg, maps, types, ids).seats;
    if SeatOf(seats, k) {
      var i :| 0 <= i < |seats| && seats[i].court == k;
      SeatHasFlag(seats, i);
      BuiltFlag(cfg, maps, types, ids, k, seats[i].city);
      assert DeclaredFlag(cfg, maps, types, k, seats[i].city).Some?;
    }
    if KeyDeclared(cfg, maps, types, k) {
      var x: CityId :| DeclaredFlag(cfg, maps, types, k, x).Some?;
      BuiltFlag(cfg, maps, types, ids, k, x);
      var i := FlagHasSeat(seats, k, x);
    }
  }

  lemma KeptRowHasCourt(rows: seq<SeatRow>, seats: seq<Seat>, courts: seq<string>, r: SeatRow)
    requires AllStand(rows, seats, courts) && RowFlag(rows, r.courtId, r.cityId).Some?
    ensures r.courtId < |courts|
  {
    RowFlagIsPair(rows, r);
    var i :| 0 <= i < |rows| && SamePair(rows[i], r);
    assert Stands(rows[i], seats[i], courts);
  }

  lemma SeededTables(cfg: Config, maps: Maps, types: seq<CourtType>, ids: seq<CityId>,
                     courts: seq<CourtRow>, rows: seq<SeatRow>)
    requires PipeFreeTypes(types) && forall x :: x in ids <==> SeatsDistrict(cfg, maps, x)
    requires IsBuilt(Built(cfg, maps, types, ids), courts, rows) && PipeFreeCourts(courts)
    ensures IsSeeded(cfg, maps, types, courts, FirstOnly(rows))
  {
    var p := Built(cfg, maps, types, ids);
    var kept := FirstOnly(rows);
    KeptRows(rows);
    forall i, j | 0 <= i < j < |courts| ensures courts[i] != courts[j] {
      assert IsKeyOf(p.courts[i], courts[i]) && IsKeyOf(p.courts[j], courts[j]);
    }
    forall r | r in kept
      ensures r.courtId < |courts| && HasFirstFlag(cfg, maps, types, courts[r.courtId], r)
              && Declared(cfg, maps, types, courts[r.courtId].courtType, courts[r.courtId].name, r.cityId)
    {
      RowIsDeclared(cfg, maps, types, ids, courts, rows, r);
    }
    forall c: CourtRow, x: CityId | Declared(cfg, maps, types, c.courtType, c.name, x) ensures HasSeat(courts, kept, c, x) {
      DeclaredHasRow(cfg, maps, types, ids, courts, rows, c, x);
    }
    forall c: CourtRow
      ensures c in courts <==> ListedSpecial(cfg, c) || CourtDeclared(cfg, maps, types, c)
    {
      CourtIsDeclared(cfg, maps, types, ids, courts, c);
    }
  }

  lemma DeclaredIsFree(cfg: Config, maps: Maps, types: seq<CourtType>, courtType: string, name: string, x: CityId)
    requires PipeFreeTypes(types) && Declared(cfg, maps, types, courtType, name, x)
    ensures Free(courtType, '|')
  {
    PlacesArePipeFree(types);
    assert Free(LOWER_COURT, '|') && Free(SPECIAL_COURT, '|');
  }

  lemma SeatedIsDeclared(cfg: Config, maps: Maps, types: seq<CourtType>, ids: seq<CityId>, c: CourtRow)
    requires PipeFreeTypes(types) && Free(c.courtType, '|')
    requires forall x :: x in ids <==> SeatsDistrict(cfg, maps, x)
    ensures SeatOf(Built(cfg, maps, types, ids).seats, CourtKey(c.courtType, c.name)) <==> CourtDeclared(cfg, maps, types, c)
  {
    var seats, k := Built(cfg, maps, types, ids).seats, CourtKey(c.courtType, c.name);
    if SeatOf(seats, k) {
      var i :| 0 <= i < |seats| && seats[i].court == k;
      SeatHasFlag(seats, i);
      PipeFreeIsDeclared(cfg, maps, types, ids, c.courtType, c.name, seats[i].city);
    }
    if CourtDeclared(cfg, maps, types, c) {
      var x: CityId :| Declared(cfg, maps, types, c.courtType, c.name, x);
      PipeFreeIsDeclared(cfg, maps, types, ids, c.courtType, c.name, x);
      var i := FlagHasSeat(seats, k, x);
    }
  }

  /** A court of the table is a listed special court or has a declared seat, and the other way round. */
  lemma CourtIsDeclared(cfg: Config, maps: Maps, types: seq<CourtType>, ids: seq<CityId>, courts: seq<CourtRow>, c: CourtRow)
    requires PipeFreeTypes(types) && PipeFreeCourts(courts) && Keyed(courts, Built(cfg, maps, types, ids).courts)
    requires forall x :: x in ids <==> SeatsDistrict(cfg, maps, x)
    ensures c in courts <==> ListedSpecial(cfg, c) || CourtDeclared(cfg, maps, types, c)
  {
    var k := CourtKey(c.courtType, c.name);
    if Free(c.courtType, '|') {
      KeyedCourt(courts, Built(cfg, maps, types, ids).courts, k);
      CourtRowOfKey(courts, c);
      LowerIsNamed(cfg.specialCourts, c.courtType, c.name);
      BuiltCourts(cfg, maps, types, ids, k);
      SeatedIsDeclared(cfg, maps, types, ids, c);
    } else {
      assert Free(SPECIAL_COURT, '|');
      if CourtDeclared(cfg, maps, types, c) {
        var x: CityId :| Declared(cfg, maps, types, c.courtType, c.name, x);
        DeclaredIsFree(cfg, maps, types, c.courtType, c.name, x);
        assert false;
      }
    }
  }

  lemma CourtRowOfKey(courts: seq<CourtRow>, c: CourtRow)
    requires PipeFreeCourts(courts) && Free(c.courtType, '|')
    ensures c in courts <==> CourtWithKey(courts, CourtKey(c.courtType, c.name))
  {
    if CourtWithKey(courts, CourtKey(c.courtType, c.name)) {
      var i :| 0 <= i < |courts| && KeyAt(courts, i) == CourtKey(c.courtType, c.name);
      CourtKeyIsPair(courts[i].courtType, courts[i].name, c.courtType, c.name);
      assert courts[i] == c;
    }
    if c in courts {
      var i :| 0 <= i < |courts| && courts[i] == c;
      assert KeyAt(courts, i) == CourtKey(c.courtType, c.name);
    }
  }
}
