/** The seat-building walk: what it should write, and the class that writes it, row by row. */
module GeoWalk {
  import opened Base
  import opened Text
  import opened GeoLookup

  const LOWER_COURT := "Lower Court"
  const SPECIAL_COURT := "Special Court"

  datatype Entry = Entry(city: string, principal: bool)
  datatype ProvinceEntries = ProvinceEntries(name: string, entries: seq<Entry>)
  datatype SubCourt = SubCourt(name: string, provinces: seq<ProvinceEntries>)
  datatype CourtType = CourtType(name: string, subs: seq<SubCourt>)

  /** One city entry with the keys of the three levels above it. */
  datatype Place = Place(courtType: string, sub: string, province: string, entry: Entry)

  /** A seat before its court has an id: the court's memo key, the city and the principal-seat flag. */
  datatype Seat = Seat(court: string, city: CityId, principal: bool)

  datatype Progress = Progress(courts: seq<string>, seats: seq<Seat>, unresolved: map<string, set<string>>)

  const START := Progress([], [], map[])

  function CourtKey(courtType: string, name: string): string {
    courtType + "||" + name
  }

  // ---- The walk as a fold ----

  function Opened(p: Progress, court: string): Progress {
    p.(courts := if court in p.courts then p.courts else p.courts + [court])
  }

  function Seated(p: Progress, seat: Seat): Progress {
    Opened(p, seat.court).(seats := p.seats + [seat])
  }

  function LowerCourtsAt(names: seq<string>, city: CityId, p: Progress): Progress {
    if names == [] then p
    else LowerCourtsAt(names[1..], city, Seated(p, Seat(CourtKey(LOWER_COURT, names[0]), city, false)))
  }

  /** Lower Court entries seat every canonical sub-court; Special Court entries seat nothing here. */
  function CitySeated(cfg: Config, place: Place, city: CityId, p: Progress): Progress {
    if place.courtType == LOWER_COURT then LowerCourtsAt(cfg.lowerCourts, city, p)
    else if place.courtType == SPECIAL_COURT then p
    else Seated(p, Seat(CourtKey(place.courtType, place.sub), city, place.entry.principal))
  }

  function CitiesSeated(cfg: Config, place: Place, ids: seq<CityId>, p: Progress): Progress {
    if ids == [] then p else CitiesSeated(cfg, place, ids[1..], CitySeated(cfg, place, ids[0], p))
  }

  function Canonical(cfg: Config, province: string): string {
    Get(cfg.provinceAlias, province).GetOr(province)
  }

  function CitiesOf(cfg: Config, maps: Maps, place: Place): seq<CityId> {
    EntryCities(cfg, maps, Canonical(cfg, place.province), place.entry.city)
  }

  function Noted(m: map<string, set<string>>, province: string, city: string): map<string, set<string>> {
    m[province := Get(m, province).GetOr({}) + {city}]
  }

  function PlaceWalked(cfg: Config, maps: Maps, place: Place, p: Progress): Progress {
    var ids := CitiesOf(cfg, maps, place);
    if ids == [] then p.(unresolved := Noted(p.unresolved, Canonical(cfg, place.province), place.entry.city))
    else CitiesSeated(cfg, place, ids, p)
  }

  function Walked(cfg: Config, maps: Maps, places: seq<Place>, p: Progress): Progress {
    if places == [] then p else Walked(cfg, maps, places[1..], PlaceWalked(cfg, maps, places[0], p))
  }

  function EntryPlaces(courtType: string, sub: string, province: string, entries: seq<Entry>): seq<Place> {
    if entries == [] then []
    else [Place(courtType, sub, province, entries[0])] + EntryPlaces(courtType, sub, province, entries[1..])
  }

  function ProvincePlaces(courtType: string, sub: string, provinces: seq<ProvinceEntries>): seq<Place> {
    if provinces == [] then []
    else EntryPlaces(courtType, sub, provinces[0].name, provinces[0].entries) + ProvincePlaces(courtType, sub, provinces[1..])
  }

  function SubPlaces(courtType: string, subs: seq<SubCourt>): seq<Place> {
    if subs == [] then [] else ProvincePlaces(courtType, subs[0].name, subs[0].provinces) + SubPlaces(courtType, subs[1..])
  }

  function Places(types: seq<CourtType>): seq<Place> {
    if types == [] then [] else SubPlaces(types[0].name, types[0].subs) + Places(types[1..])
  }

  /** A tehsil the country does not have is skipped, and not reported. */
  function TehsilsWalked(cfg: Config, maps: Maps, tehsils: seq<string>, p: Progress): Progress {
    if tehsils == [] then p
    else
      var city := Get(maps.global, cfg.lower(tehsils[0]));
      TehsilsWalked(cfg, maps, tehsils[1..], if city.None? then p else LowerCourtsAt(cfg.lowerCourts, city.value, p))
  }

  function HubsWalked(cfg: Config, maps: Maps, hubs: seq<seq<string>>, p: Progress): Progress {
    if hubs == [] then p else HubsWalked(cfg, maps, hubs[1..], TehsilsWalked(cfg, maps, hubs[0], p))
  }

  function SeatedAll(court: string, ids: seq<CityId>, p: Progress): Progress {
    if ids == [] then p else SeatedAll(court, ids[1..], Seated(p, Seat(court, ids[0], false)))
  }

  /** A special court is created even when no district has a seat for it. */
  function SpecialsWalked(names: seq<string>, ids: seq<CityId>, p: Progress): Progress {
    if names == [] then p
    else
      var court := CourtKey(SPECIAL_COURT, names[0]);
      SpecialsWalked(names[1..], ids, SeatedAll(court, ids, Opened(p, court)))
  }

  /** All three passes. */
  function Built(cfg: Config, maps: Maps, types: seq<CourtType>, specialIds: seq<CityId>): Progress {
    SpecialsWalked(cfg.specialCourts, specialIds,
                   HubsWalked(cfg, maps, cfg.tehsils, Walked(cfg, maps, Places(types), START)))
  }

  lemma {:induction false} WalkedConcat(cfg: Config, maps: Maps, a: seq<Place>, b: seq<Place>, p: Progress)
    ensures Walked(cfg, maps, a + b, p) == Walked(cfg, maps, b, Walked(cfg, maps, a, p))
  {
    if a == [] {
      assert a + b == b;
    } else {
      assert (a + b)[1..] == a[1..] + b;
      WalkedConcat(cfg, maps, a[1..], b, PlaceWalked(cfg, maps, a[0], p));
    }
  }

  // ---- The loops ----

  datatype CourtRow = CourtRow(courtType: string, name: string)
  datatype SeatRow = SeatRow(courtId: nat, cityId: CityId, principal: bool)

  /** No court type of the list holds the memo key's separator. */
  predicate PipeFreeTypes(types: seq<CourtType>) {
    forall t :: t in types ==> Free(t.name, '|')
  }

  /** A court is filed under its own key. */
  predicate IsKeyOf(key: string, c: CourtRow) {
    key == CourtKey(c.courtType, c.name)
  }

  predicate PipeFreeCourts(courts: seq<CourtRow>) {
    forall i :: 0 <= i < |courts| ==> Free(courts[i].courtType, '|')
  }

  /** The row is this seat, with the court's id for its key. */
  predicate Stands(row: SeatRow, seat: Seat, courts: seq<string>) {
    row.courtId < |courts| && seat == Seat(courts[row.courtId], row.cityId, row.principal)
  }

  predicate RowsStand(rows: seq<SeatRow>, seats: seq<Seat>, courts: seq<string>) {
    |rows| == |seats| && forall i :: 0 <= i < |rows| ==> Stands(rows[i], seats[i], courts)
  }

  /** Each court stands at the place of its key. */
  predicate Filed(courts: seq<CourtRow>, keys: seq<string>) {
    |courts| == |keys| && forall i :: 0 <= i < |courts| ==> IsKeyOf(keys[i], courts[i])
  }

  /** The memo is one-to-one: a key has one id, its place. */
  ghost predicate MemoHolds(memo: map<string, nat>, keys: seq<string>) {
    && Distinct(keys) && (forall k :: k in memo <==> k in keys)
    && forall k :: k in memo ==> memo[k] < |keys| && keys[memo[k]] == k
  }

  lemma MemoOneMore(memo: map<string, nat>, keys: seq<string>, k: string)
    requires MemoHolds(memo, keys) && k !in memo
    ensures MemoHolds(memo[k := |keys|], keys + [k])
  {
    assert forall i :: 0 <= i < |keys| ==> keys[i] in keys;
  }

  /** `seatRows`, `courtIdByKey`, `unresolved` and the court table; a court's id is its place in it. */
  class SeatBuilder {
    const cfg: Config
    const maps: Maps
    /** The court list it is given has no separator in a type. */
    ghost const pipeFree: bool
    var courts: seq<CourtRow>
    var courtIdByKey: map<string, nat>
    var rows: seq<SeatRow>
    var unresolved: map<string, set<string>>
    /** The same progress with court keys in place of ids. */
    ghost var progress: Progress

    /** Every court was created under its own key, and once. */
    ghost predicate Valid() reads this {
      && Filed(courts, progress.courts) && MemoHolds(courtIdByKey, progress.courts)
      && (pipeFree ==> PipeFreeCourts(courts))
      && RowsStand(rows, progress.seats, progress.courts)
      && unresolved == progress.unresolved
    }

    constructor (cfg: Config, maps: Maps, ghost pipeFree: bool)
      ensures Valid() && progress == START && this.cfg == cfg && this.maps == maps && this.pipeFree == pipeFree
    {
      this.cfg, this.maps, this.pipeFree := cfg, maps, pipeFree;
      courts, courtIdByKey, rows, unresolved, progress := [], map[], [], map[], START;
    }

    method GetOrCreateCourt(courtType: string, name: string) returns (id: nat)
      requires Valid() && (pipeFree ==> Free(courtType, '|'))
      modifies this
      ensures Valid() && progress == Opened(old(progress), CourtKey(courtType, name))
      ensures id < |courts| && progress.courts[id] == CourtKey(courtType, name)
    {
      var k := CourtKey(courtType, name);
      if k in courtIdByKey {
        id := courtIdByKey[k];
      } else {
        id := CreateCourt(CourtRow(courtType, name), k);
      }
    }

    /** `tx.court.create` and the memo entry. */
    method CreateCourt(court: CourtRow, k: string) returns (id: nat)
      requires Valid() && IsKeyOf(k, court) && k !in courtIdByKey && (pipeFree ==> Free(court.courtType, '|'))
      modifies this`courts, this`courtIdByKey, this`progress
      ensures Valid() && progress == old(progress).(courts := old(progress.courts) + [k])
      ensures id == old(|courts|) && |courts| == id + 1
    {
      id := |courts|;
      MemoOneMore(courtIdByKey, progress.courts, k);
      courts := courts + [court];
      courtIdByKey := courtIdByKey[k := id];
      progress := progress.(courts := progress.courts + [k]);
    }

    method PushSeat(courtType: string, name: string, city: CityId, principal: bool)
      requires Valid() && (pipeFree ==> Free(courtType, '|'))
      modifies this
      ensures Valid() && progress == Seated(old(progress), Seat(CourtKey(courtType, name), city, principal))
    {
      var courtId := GetOrCreateCourt(courtType, name);
      PushRow(courtId, city, principal);
    }

    method PushRow(courtId: nat, city: CityId, principal: bool)
      requires Valid() && courtId < |courts|
      modifies this`rows, this`progress
      ensures Valid() && progress.courts == old(progress.courts)
      ensures progress == Seated(old(progress), Seat(old(progress.courts)[courtId], city, principal))
    {
      rows := rows + [SeatRow(courtId, city, principal)];
      progress := progress.(seats := progress.seats + [Seat(progress.courts[courtId], city, principal)]);
    }

    method SeatLowerCourts(city: CityId)
      requires Valid()
      modifies this
      ensures Valid() && progress == LowerCourtsAt(cfg.lowerCourts, city, old(progress))
    {
      for i := 0 to |cfg.lowerCourts|
        invariant Valid()
        invariant LowerCourtsAt(cfg.lowerCourts, city, old(progress)) == LowerCourtsAt(cfg.lowerCourts[i..], city, progress)
      {
        PushSeat(LOWER_COURT, cfg.lowerCourts[i], city, false);
        assert cfg.lowerCourts[i..][1..] == cfg.lowerCourts[i + 1..];
      }
    }

    method WalkPlace(place: Place)
      requires Valid() && (pipeFree ==> Free(place.courtType, '|'))
      modifies this
      ensures Valid() && progress == PlaceWalked(cfg, maps, place, old(progress))
    {
      var province := Canonical(cfg, place.province);
      var ids := ResolveEntry(cfg, maps, province, place.entry.city);
      if ids == [] {
        unresolved := Noted(unresolved, province, place.entry.city);
        progress := progress.(unresolved := unresolved);
        return;
      }
      for i := 0 to |ids|
        invariant Valid()
        invariant CitiesSeated(cfg, place, ids, old(progress)) == CitiesSeated(cfg, place, ids[i..], progress)
      {
        assert ids[i..][1..] == ids[i + 1..];
        SeatCity(place, ids[i]);
      }
    }

    method SeatCity(place: Place, city: CityId)
      requires Valid() && (pipeFree ==> Free(place.courtType, '|'))
      modifies this
      ensures Valid() && progress == CitySeated(cfg, place, city, old(progress))
    {
      if place.courtType == LOWER_COURT {
        SeatLowerCourts(city);
      } else if place.courtType != SPECIAL_COURT {
        PushSeat(place.courtType, place.sub, city, place.entry.principal);
      }
    }

    method WalkEntries(courtType: string, sub: string, province: ProvinceEntries)
      requires Valid() && (pipeFree ==> Free(courtType, '|'))
      modifies this
      ensures Valid()
      ensures progress == Walked(cfg, maps, EntryPlaces(courtType, sub, province.name, province.entries), old(progress))
    {
      var entries := province.entries;
      for i := 0 to |entries|
        invariant Valid()
        invariant Walked(cfg, maps, EntryPlaces(courtType, sub, province.name, entries), old(progress))
               == Walked(cfg, maps, EntryPlaces(courtType, sub, province.name, entries[i..]), progress)
      {
        ghost var rest := EntryPlaces(courtType, sub, province.name, entries[i..]);
        assert entries[i..][1..] == entries[i + 1..];
        assert rest[1..] == EntryPlaces(courtType, sub, province.name, entries[i + 1..]);
        WalkPlace(Place(courtType, sub, province.name, entries[i]));
      }
    }

    method WalkProvinces(courtType: string, sub: SubCourt)
      requires Valid() && (pipeFree ==> Free(courtType, '|'))
      modifies this
      ensures Valid() && progress == Walked(cfg, maps, ProvincePlaces(courtType, sub.name, sub.provinces), old(progress))
    {
      var provinces := sub.provinces;
      for i := 0 to |provinces|
        invariant Valid()
        invariant Walked(cfg, maps, ProvincePlaces(courtType, sub.name, provinces), old(progress))
               == Walked(cfg, maps, ProvincePlaces(courtType, sub.name, provinces[i..]), progress)
      {
        assert provinces[i..][1..] == provinces[i + 1..];
        WalkedConcat(cfg, maps, EntryPlaces(courtType, sub.name, provinces[i].name, provinces[i].entries),
                     ProvincePlaces(courtType, sub.name, provinces[i + 1..]), progress);
        WalkEntries(courtType, sub.name, provinces[i]);
      }
    }

    method WalkSubCourts(t: CourtType)
      requires Valid() && (pipeFree ==> Free(t.name, '|'))
      modifies this
      ensures Valid() && progress == Walked(cfg, maps, SubPlaces(t.name, t.subs), old(progress))
    {
      for i := 0 to |t.subs|
        invariant Valid()
        invariant Walked(cfg, maps, SubPlaces(t.name, t.subs), old(progress))
               == Walked(cfg, maps, SubPlaces(t.name, t.subs[i..]), progress)
      {
        assert t.subs[i..][1..] == t.subs[i + 1..];
        WalkedConcat(cfg, maps, ProvincePlaces(t.name, t.subs[i].name, t.subs[i].provinces),
                     SubPlaces(t.name, t.subs[i + 1..]), progress);
        WalkProvinces(t.name, t.subs[i]);
      }
    }

    method WalkCourts(types: seq<CourtType>)
      requires Valid() && (pipeFree ==> PipeFreeTypes(types))
      modifies this
      ensures Valid() && progress == Walked(cfg, maps, Places(types), old(progress))
    {
      for i := 0 to |types|
        invariant Valid()
        invariant Walked(cfg, maps, Places(types), old(progress)) == Walked(cfg, maps, Places(types[i..]), progress)
      {
        assert types[i..][1..] == types[i + 1..];
        WalkedConcat(cfg, maps, SubPlaces(types[i].name, types[i].subs), Places(types[i + 1..]), progress);
        WalkSubCourts(types[i]);
      }
    }

    method WalkTehsils(tehsils: seq<string>)
      requires Valid()
      modifies this
      ensures Valid() && progress == TehsilsWalked(cfg, maps, tehsils, old(progress))
    {
      for i := 0 to |tehsils|
        invariant Valid()
        invariant TehsilsWalked(cfg, maps, tehsils, old(progress)) == TehsilsWalked(cfg, maps, tehsils[i..], progress)
      {
        assert tehsils[i..][1..] == tehsils[i + 1..];
        var city := Get(maps.global, cfg.lower(tehsils[i]));
        if city.Some? { SeatLowerCourts(city.value); }
      }
    }

    method WalkHubs()
      requires Valid()
      modifies this
      ensures Valid() && progress == HubsWalked(cfg, maps, cfg.tehsils, old(progress))
    {
      for i := 0 to |cfg.tehsils|
        invariant Valid()
        invariant HubsWalked(cfg, maps, cfg.tehsils, old(progress)) == HubsWalked(cfg, maps, cfg.tehsils[i..], progress)
      {
        assert cfg.tehsils[i..][1..] == cfg.tehsils[i + 1..];
        WalkTehsils(cfg.tehsils[i]);
      }
    }

    method SeatEverywhere(courtId: nat, ids: seq<CityId>)
      requires Valid() && courtId < |courts|
      modifies this
      ensures Valid() && progress == SeatedAll(old(progress).courts[courtId], ids, old(progress))
    {
      ghost var court := progress.courts[courtId];
      for i := 0 to |ids|
        invariant Valid() && courtId < |courts| && progress.courts[courtId] == court
        invariant SeatedAll(court, ids, old(progress)) == SeatedAll(court, ids[i..], progress)
      {
        assert ids[i..][1..] == ids[i + 1..];
        PushRow(courtId, ids[i], false);
      }
    }

    method WalkSpecials(ids: seq<CityId>)
      requires Valid()
      modifies this
      ensures Valid() && progress == SpecialsWalked(cfg.specialCourts, ids, old(progress))
    {
      var names := cfg.specialCourts;
      for i := 0 to |names|
        invariant Valid()
        invariant SpecialsWalked(names, ids, old(progress)) == SpecialsWalked(names[i..], ids, progress)
      {
        assert names[i..][1..] == names[i + 1..];
        SeatSpecial(names[i], ids);
      }
    }

    method SeatSpecial(name: string, ids: seq<CityId>)
      requires Valid()
      modifies this
      ensures Valid()
      ensures progress == SeatedAll(CourtKey(SPECIAL_COURT, name), ids, Opened(old(progress), CourtKey(SPECIAL_COURT, name)))
    {
      var courtId := GetOrCreateCourt(SPECIAL_COURT, name);
      SeatEverywhere(courtId, ids);
    }
  }
}
