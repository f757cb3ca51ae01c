/**
 * The seeded cities by lower-cased name, and how a name in the court list is resolved to them:
 * fan-out, literal name, alias, the province first and the whole country after it.
 */
module GeoLookup {
  import opened Base
  import opened LastWriteWins

  type CityId = nat

  datatype City = City(id: CityId, name: string)

  /** A province with the cities of its districts, in the order the database returns them. */
  datatype Province = Province(name: string, cities: seq<City>)

  type CityMap = map<string, CityId>

  datatype Maps = Maps(byProvince: map<string, CityMap>, global: CityMap)

  /** The tables of the alias file; `toLowerCase` is opaque. */
  datatype Config = Config(lower: string -> string, provinceAlias: map<string, string>, cityAlias: map<string, string>,
                           fanout: map<string, seq<string>>, lowerCourts: seq<string>, tehsils: seq<seq<string>>,
                           specialCourts: seq<string>, districts: seq<string>)

  function Get<V>(m: map<string, V>, k: string): Option<V> {
    if k in m then Some(m[k]) else None
  }

  /** `a ?? b`. */
  function Or<T>(a: Option<T>, b: Option<T>): Option<T> {
    if a.Some? then a else b
  }

  // ---- City maps ----

  function ProvinceMap(lower: string -> string, cities: seq<City>): CityMap {
    if cities == [] then map[]
    else
      var last := cities[|cities| - 1];
      ProvinceMap(lower, cities[..|cities| - 1])[lower(last.name) := last.id]
  }

  /** A name already taken by an earlier province stays. */
  function GlobalMap(lower: string -> string, provinces: seq<Province>): CityMap {
    if provinces == [] then map[]
    else ProvinceMap(lower, provinces[|provinces| - 1].cities) + GlobalMap(lower, provinces[..|provinces| - 1])
  }

  function ByProvince(lower: string -> string, provinces: seq<Province>): map<string, CityMap> {
    if provinces == [] then map[]
    else
      var last := provinces[|provinces| - 1];
      ByProvince(lower, provinces[..|provinces| - 1])[last.name := ProvinceMap(lower, last.cities)]
  }

  function CityKey(lower: string -> string): City -> string {
    (c: City) => lower(c.name)
  }

  /** Inside a province the last city of a name wins. */
  lemma {:induction false} LastCityWins(lower: string -> string, cities: seq<City>, k: string)
    ensures Get(ProvinceMap(lower, cities), k)
            == if Has(cities, CityKey(lower), k) then Some(LastWith(cities, CityKey(lower), k).id) else None
  {
    if cities != [] {
      HasStep(cities, CityKey(lower), k);
      LastCityWins(lower, cities[..|cities| - 1], k);
    }
  }

  predicate InProvince(lower: string -> string, p: Province, k: string) {
    Has(p.cities, CityKey(lower), k)
  }

  lemma {:induction false} NoProvinceHas(lower: string -> string, provinces: seq<Province>, k: string)
    requires forall i :: 0 <= i < |provinces| ==> !InProvince(lower, provinces[i], k)
    ensures Get(GlobalMap(lower, provinces), k) == None
  {
    if provinces != [] {
      var n := |provinces| - 1;
      LastCityWins(lower, provinces[n].cities, k);
      NoProvinceHas(lower, provinces[..n], k);
    }
  }

  /** Across provinces the first one that has the name wins. */
  lemma {:induction false} FirstProvinceWins(lower: string -> string, provinces: seq<Province>, i: nat, k: string)
    requires i < |provinces| && InProvince(lower, provinces[i], k)
    requires forall j :: 0 <= j < i ==> !InProvince(lower, provinces[j], k)
    ensures Get(GlobalMap(lower, provinces), k) == Some(LastWith(provinces[i].cities, CityKey(lower), k).id)
  {
    var n := |provinces| - 1;
    if i < n {
      FirstProvinceWins(lower, provinces[..n], i, k);
    } else {
      LastCityWins(lower, provinces[n].cities, k);
      NoProvinceHas(lower, provinces[..n], k);
    }
  }

  predicate UniqueNames(provinces: seq<Province>) {
    forall i, j :: 0 <= i < j < |provinces| ==> provinces[i].name != provinces[j].name
  }

  lemma {:induction false} OwnMap(lower: string -> string, provinces: seq<Province>, i: nat)
    requires UniqueNames(provinces) && i < |provinces|
    ensures Get(ByProvince(lower, provinces), provinces[i].name) == Some(ProvinceMap(lower, provinces[i].cities))
  {
    if i < |provinces| - 1 { OwnMap(lower, provinces[..|provinces| - 1], i); }
  }

  /** The two map-building loops; the database keeps province names unique. */
  method BuildMaps(lower: string -> string, provinces: seq<Province>) returns (maps: Maps)
    requires UniqueNames(provinces)
    ensures maps == Maps(ByProvince(lower, provinces), GlobalMap(lower, provinces))
  {
    var byProvince: map<string, CityMap> := map[];
    for i := 0 to |provinces|
      invariant byProvince == ByProvince(lower, provinces[..i])
    {
      var m := BuildProvinceMap(lower, provinces[i].cities);
      assert provinces[..i + 1][..i] == provinces[..i];
      byProvince := byProvince[provinces[i].name := m];
    }
    assert provinces[..|provinces|] == provinces;
    var global: CityMap := map[];
    for i := 0 to |provinces|
      invariant global == GlobalMap(lower, provinces[..i])
    {
      OwnMap(lower, provinces, i);
      assert provinces[..i + 1][..i] == provinces[..i];
      global := AddMissing(global, byProvince[provinces[i].name]);
    }
    assert provinces[..|provinces|] == provinces;
    maps := Maps(byProvince, global);
  }

  method BuildProvinceMap(lower: string -> string, cities: seq<City>) returns (m: CityMap)
    ensures m == ProvinceMap(lower, cities)
  {
    m := map[];
    for c := 0 to |cities|
      invariant m == ProvinceMap(lower, cities[..c])
    {
      assert cities[..c + 1][..c] == cities[..c];
      m := m[lower(cities[c].name) := cities[c].id];
    }
    assert cities[..|cities|] == cities;
  }

  /** `if (!globalCityByName.has(k)) globalCityByName.set(k, v)` over a province's entries. */
  method AddMissing(global: CityMap, m: CityMap) returns (r: CityMap)
    ensures r == m + global
  {
    r := global;
    var left := m.Keys;
    while left != {}
      invariant left <= m.Keys
      invariant r.Keys == global.Keys + (m.Keys - left)
      invariant forall k :: k in r ==> r[k] == if k in global then global[k] else m[k]
      decreases |left|
    {
      var k :| k in left;
      left := left - {k};
      if k !in r { r := r[k := m[k]]; }
    }
  }

  // ---- Resolving a name ----

  function InCities(cities: Option<CityMap>, k: string): Option<CityId> {
    match cities
    case None => None
    case Some(m) => Get(m, k)
  }

  function FanOut(cfg: Config, maps: Maps, cities: Option<CityMap>, names: seq<string>): seq<CityId> {
    if names == [] then []
    else
      var k := cfg.lower(names[|names| - 1]);
      FanOut(cfg, maps, cities, names[..|names| - 1])
      + match Or(InCities(cities, k), Get(maps.global, k))
        case Some(id) => [id]
        case None => []
  }

  /** The cities a court entry sits in: none when its name resolves nowhere. */
  function EntryCities(cfg: Config, maps: Maps, province: string, city: string): seq<CityId> {
    var cities := Get(maps.byProvince, province);
    if city in cfg.fanout then FanOut(cfg, maps, cities, cfg.fanout[city])
    else
      var literal := cfg.lower(city);
      var aliased := cfg.lower(Get(cfg.cityAlias, city).GetOr(city));
      match Or(Or(InCities(cities, literal), InCities(cities, aliased)), Get(maps.global, aliased))
      case Some(id) => [id]
      case None => []
  }

  method ResolveEntry(cfg: Config, maps: Maps, province: string, city: string) returns (ids: seq<CityId>)
    ensures ids == EntryCities(cfg, maps, province, city)
  {
    var cities := Get(maps.byProvince, province);
    ids := [];
    if city in cfg.fanout {
      var names := cfg.fanout[city];
      for i := 0 to |names|
        invariant ids == FanOut(cfg, maps, cities, names[..i])
      {
        assert names[..i + 1][..i] == names[..i];
        var k := cfg.lower(names[i]);
        var id := Or(InCities(cities, k), Get(maps.global, k));
        if id.Some? { ids := ids + [id.value]; }
      }
      assert names[..|names|] == names;
    } else {
      var literal := cfg.lower(city);
      var aliased := cfg.lower(Get(cfg.cityAlias, city).GetOr(city));
      var id := Or(Or(InCities(cities, literal), InCities(cities, aliased)), Get(maps.global, aliased));
      if id.Some? { ids := [id.value]; }
    }
  }

  // ---- Special-court districts ----

  function DistrictSeat(cfg: Config, global: CityMap, district: string): Option<CityId> {
    Or(Get(global, cfg.lower(district)),
       if district in cfg.cityAlias && cfg.cityAlias[district] != "" then Get(global, cfg.lower(cfg.cityAlias[district])) else None)
  }

  /** `resolveSpecialCourtSeatCityIds`: each seat city once, and the districts that have none. */
  method ResolveSpecialSeats(cfg: Config, global: CityMap) returns (ids: seq<CityId>, unresolved: seq<string>)
    ensures Distinct(ids)
    ensures forall id :: id in ids <==> exists d :: d in cfg.districts && DistrictSeat(cfg, global, d) == Some(id)
    ensures forall d :: d in unresolved <==> d in cfg.districts && DistrictSeat(cfg, global, d) == None
  {
    ids, unresolved := [], [];
    var seen: set<CityId> := {};
    for i := 0 to |cfg.districts|
      invariant Distinct(ids) && seen == Elements(ids)
      invariant forall id :: id in ids
                             <==> exists d :: d in cfg.districts[..i] && DistrictSeat(cfg, global, d) == Some(id)
      invariant forall d :: d in unresolved <==> d in cfg.districts[..i] && DistrictSeat(cfg, global, d) == None
    {
      var district := cfg.districts[i];
      assert cfg.districts[..i + 1] == cfg.districts[..i] + [district];
      var id := DistrictSeat(cfg, global, district);
      if id.None? {
        unresolved := unresolved + [district];
      } else if id.value !in seen {
        seen := seen + {id.value};
        ids := ids + [id.value];
      }
    }
    assert cfg.districts[..|cfg.districts|] == cfg.districts;
  }

  // ---- What the look-ups find, in the records ----

  function MapsOf(cfg: Config, provinces: seq<Province>): Maps {
    Maps(ByProvince(cfg.lower, provinces), GlobalMap(cfg.lower, provinces))
  }

  /** The last city of this lower-cased name in the list. */
  ghost predicate LastNamed(lower: string -> string, cities: seq<City>, k: string, id: CityId) {
    exists i: nat :: i < |cities| && lower(cities[i].name) == k && cities[i].id == id && NoneNamedAfter(lower, cities, i, k)
  }

  predicate NoneNamedAfter(lower: string -> string, cities: seq<City>, i: nat, k: string) {
    forall j :: i < j < |cities| ==> lower(cities[j].name) != k
  }

  /** The province has this city under the name. */
  ghost predicate LocalCity(lower: string -> string, provinces: seq<Province>, province: string, k: string, id: CityId) {
    exists p :: p in provinces && p.name == province && LastNamed(lower, p.cities, k, id)
  }

  ghost predicate NoLocal(lower: string -> string, provinces: seq<Province>, province: string, k: string) {
    forall p :: p in provinces && p.name == province ==> !InProvince(lower, p, k)
  }

  /** The first province with a city of the name has this one. */
  ghost predicate CountryCity(lower: string -> string, provinces: seq<Province>, k: string, id: CityId) {
    exists i: nat :: i < |provinces| && LastNamed(lower, provinces[i].cities, k, id)
                     && forall j :: 0 <= j < i ==> !InProvince(lower, provinces[j], k)
  }

  ghost predicate NoCountry(lower: string -> string, provinces: seq<Province>, k: string) {
    forall p :: p in provinces ==> !InProvince(lower, p, k)
  }

  lemma NamedExactly(lower: string -> string, cities: seq<City>, k: string, id: CityId)
    ensures Get(ProvinceMap(lower, cities), k) == Some(id) <==> LastNamed(lower, cities, k, id)
    ensures Get(ProvinceMap(lower, cities), k).Some? <==> Has(cities, CityKey(lower), k)
  {
    LastCityWins(lower, cities, k);
    if Has(cities, CityKey(lower), k) {
      var p := LastWithIsLast(cities, CityKey(lower), k);
      assert NoneNamedAfter(lower, cities, p, k);
      if LastNamed(lower, cities, k, id) {
        var i: nat :| i < |cities| && lower(cities[i].name) == k && cities[i].id == id && NoneNamedAfter(lower, cities, i, k);
        assert i == p;
      }
    }
  }

  lemma LocalExactly(lower: string -> string, provinces: seq<Province>, province: string, k: string, id: CityId)
    requires UniqueNames(provinces)
    ensures var own := InCities(Get(ByProvince(lower, provinces), province), k);
            && (own == Some(id) <==> LocalCity(lower, provinces, province, k, id))
            && (own.None? <==> NoLocal(lower, provinces, province, k))
  {
    if p :| p in provinces && p.name == province {
      var i :| 0 <= i < |provinces| && provinces[i] == p;
      OwnMap(lower, provinces, i);
      NamedExactly(lower, p.cities, k, id);
      forall q | q in provinces && q.name == province ensures q == p {}
    } else {
      NoMap(lower, provinces, province);
    }
  }

  lemma {:induction false} NoMap(lower: string -> string, provinces: seq<Province>, province: string)
    requires forall p :: p in provinces ==> p.name != province
    ensures Get(ByProvince(lower, provinces), province).None?
  {
    if provinces != [] {
      assert provinces[|provinces| - 1] in provinces;
      NoMap(lower, provinces[..|provinces| - 1], province);
    }
  }

  lemma FirstWithName(lower: string -> string, provinces: seq<Province>, k: string, n: nat) returns (i: nat)
    requires n < |provinces| && InProvince(lower, provinces[n], k)
    ensures i < |provinces| && InProvince(lower, provinces[i], k) && forall j :: 0 <= j < i ==> !InProvince(lower, provinces[j], k)
    decreases n
  {
    if j :| 0 <= j < n && InProvince(lower, provinces[j], k) { i := FirstWithName(lower, provinces, k, j); } else { i := n; }
  }

  lemma CountryExactly(lower: string -> string, provinces: seq<Province>, k: string, id: CityId)
    ensures Get(GlobalMap(lower, provinces), k) == Some(id) <==> CountryCity(lower, provinces, k, id)
    ensures Get(GlobalMap(lower, provinces), k).None? <==> NoCountry(lower, provinces, k)
  {
    if n :| 0 <= n < |provinces| && InProvince(lower, provinces[n], k) {
      var i := FirstWithName(lower, provinces, k, n);
      FirstProvinceWins(lower, provinces, i, k);
      LastCityWins(lower, provinces[i].cities, k);
      NamedExactly(lower, provinces[i].cities, k, id);
      if CountryCity(lower, provinces, k, id) {
        var j: nat :| j < |provinces| && LastNamed(lower, provinces[j].cities, k, id)
                      && forall l :: 0 <= l < j ==> !InProvince(lower, provinces[l], k);
        NamedExactly(lower, provinces[j].cities, k, id);
        assert i == j;
      }
    } else {
      NoProvinceHas(lower, provinces, k);
      forall i | 0 <= i < |provinces| ensures !LastNamed(lower, provinces[i].cities, k, id) {
        NamedExactly(lower, provinces[i].cities, k, id);
      }
    }
  }

  // ---- Where an entry sits ----

  /** A name of a fan-out list: the entry's province first, then the country. */
  ghost predicate FansTo(cfg: Config, provinces: seq<Province>, province: string, name: string, id: CityId) {
    var k := cfg.lower(name);
    || LocalCity(cfg.lower, provinces, province, k, id)
    || (NoLocal(cfg.lower, provinces, province, k) && CountryCity(cfg.lower, provinces, k, id))
  }

  /** Any other name: in the province as written, else in the province by its alias, else in the country by its alias. */
  ghost predicate NameSits(cfg: Config, provinces: seq<Province>, province: string, city: string, id: CityId) {
    var literal, aliased := cfg.lower(city), cfg.lower(if city in cfg.cityAlias then cfg.cityAlias[city] else city);
    || LocalCity(cfg.lower, provinces, province, literal, id)
    || (NoLocal(cfg.lower, provinces, province, literal) && LocalCity(cfg.lower, provinces, province, aliased, id))
    || (&& NoLocal(cfg.lower, provinces, province, literal) && NoLocal(cfg.lower, provinces, province, aliased)
        && CountryCity(cfg.lower, provinces, aliased, id))
  }

  ghost predicate EntrySits(cfg: Config, provinces: seq<Province>, province: string, city: string, id: CityId) {
    if city in cfg.fanout then SomeFans(cfg, provinces, province, cfg.fanout[city], id)
    else NameSits(cfg, provinces, province, city, id)
  }

  lemma OneFans(cfg: Config, provinces: seq<Province>, province: string, name: string, id: CityId)
    requires UniqueNames(provinces)
    ensures var maps, k := MapsOf(cfg, provinces), cfg.lower(name);
            Or(InCities(Get(maps.byProvince, province), k), Get(maps.global, k)) == Some(id)
            <==> FansTo(cfg, provinces, province, name, id)
  {
    LocalExactly(cfg.lower, provinces, province, cfg.lower(name), id);
    CountryExactly(cfg.lower, provinces, cfg.lower(name), id);
  }

  ghost predicate SomeFans(cfg: Config, provinces: seq<Province>, province: string, names: seq<string>, id: CityId) {
    exists name :: name in names && FansTo(cfg, provinces, province, name, id)
  }

  lemma SomeFansStep(cfg: Config, provinces: seq<Province>, province: string, names: seq<string>, id: CityId)
    requires names != []
    ensures SomeFans(cfg, provinces, province, names, id)
            <==> || SomeFans(cfg, provinces, province, names[..|names| - 1], id)
                 || FansTo(cfg, provinces, province, names[|names| - 1], id)
  {
    assert names == names[..|names| - 1] + [names[|names| - 1]];
  }

  lemma {:induction false} FanOutExactly(cfg: Config, provinces: seq<Province>, province: string, names: seq<string>, id: CityId)
    requires UniqueNames(provinces)
    ensures var maps := MapsOf(cfg, provinces);
            id in FanOut(cfg, maps, Get(maps.byProvince, province), names) <==> SomeFans(cfg, provinces, province, names, id)
  {
    if names != [] {
      FanOutExactly(cfg, provinces, province, names[..|names| - 1], id);
      OneFans(cfg, provinces, province, names[|names| - 1], id);
      SomeFansStep(cfg, provinces, province, names, id);
    }
  }

  /** A fan-out list is resolved name by name, in order, each to one city at most. */
  lemma {:induction false} FanOutInOrder(cfg: Config, maps: Maps, cities: Option<CityMap>, a: seq<string>, b: seq<string>)
    ensures FanOut(cfg, maps, cities, a + b) == FanOut(cfg, maps, cities, a) + FanOut(cfg, maps, cities, b)
    ensures |a| == 1 ==> |FanOut(cfg, maps, cities, a)| <= 1
  {
    if b == [] {
      assert a + b == a;
    } else {
      var n := |b| - 1;
      FanOutInOrder(cfg, maps, cities, a, b[..n]);
      assert (a + b)[..|a + b| - 1] == a + b[..n];
    }
  }

  /**
   * The cities an entry is resolved to, in the database's own records: for a fan-out name the cities of its
   * names; for any other at most one, the province's before the country's and the written name before its alias.
   */
  lemma EntryCitiesExactly(cfg: Config, provinces: seq<Province>, province: string, city: string)
    requires UniqueNames(provinces)
    ensures forall id :: id in EntryCities(cfg, MapsOf(cfg, provinces), province, city) <==> EntrySits(cfg, provinces, province, city, id)
    ensures city !in cfg.fanout ==> |EntryCities(cfg, MapsOf(cfg, provinces), province, city)| <= 1
  {
    var maps := MapsOf(cfg, provinces);
    forall id ensures id in EntryCities(cfg, maps, province, city) <==> EntrySits(cfg, provinces, province, city, id) {
      if city in cfg.fanout {
        FanOutExactly(cfg, provinces, province, cfg.fanout[city], id);
      } else {
        NameExactly(cfg, provinces, province, city, id);
      }
    }
  }

  lemma NameExactly(cfg: Config, provinces: seq<Province>, province: string, city: string, id: CityId)
    requires UniqueNames(provinces) && city !in cfg.fanout
    ensures id in EntryCities(cfg, MapsOf(cfg, provinces), province, city) <==> NameSits(cfg, provinces, province, city, id)
  {
    var literal, aliased := cfg.lower(city), cfg.lower(if city in cfg.cityAlias then cfg.cityAlias[city] else city);
    LocalExactly(cfg.lower, provinces, province, literal, id);
    LocalExactly(cfg.lower, provinces, province, aliased, id);
    CountryExactly(cfg.lower, provinces, aliased, id);
  }

  /** A district's seat: the country's city of its name, else of its alias. */
  ghost predicate DistrictSits(cfg: Config, provinces: seq<Province>, district: string, id: CityId) {
    || CountryCity(cfg.lower, provinces, cfg.lower(district), id)
    || (&& NoCountry(cfg.lower, provinces, cfg.lower(district))
        && district in cfg.cityAlias && cfg.cityAlias[district] != ""
        && CountryCity(cfg.lower, provinces, cfg.lower(cfg.cityAlias[district]), id))
  }

  lemma DistrictExactly(cfg: Config, provinces: seq<Province>, district: string, id: CityId)
    ensures DistrictSeat(cfg, GlobalMap(cfg.lower, provinces), district) == Some(id) <==> DistrictSits(cfg, provinces, district, id)
  {
    CountryExactly(cfg.lower, provinces, cfg.lower(district), id);
    if district in cfg.cityAlias { CountryExactly(cfg.lower, provinces, cfg.lower(cfg.cityAlias[district]), id); }
  }
}
