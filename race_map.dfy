/**
 * The race map (app/components/RaceMap.tsx): venue geocoding through two
 * static coordinate tables, the marker icon computed from the selection,
 * the centroid used for the season overview, and the map camera that the
 * `MapController` effect moves (or leaves alone) whenever the race list or
 * the selected race identifier changes.
 */
module RaceMap {
  import opened Wrappers
  import opened Races

  /** A geographic point in degrees. */
  datatype Coord = Coord(lat: real, lng: real)

  /** Latitude in [-90, 90] and longitude in [-180, 180]. */
  predicate InBounds(c: Coord) {
    -90.0 <= c.lat <= 90.0 && -180.0 <= c.lng <= 180.0
  }

  // ---------------------------------------------------------------------
  // Coordinate tables and the tiered resolver
  // ---------------------------------------------------------------------

  /** `CIRCUIT_COORDINATES`: keyed by circuit, city or country name. */
  const CircuitCoordinates: map<string, Coord> := map[
    "Bahrain" := Coord(26.0325, 50.5106),
    "Saudi Arabia" := Coord(21.6319, 39.1044),
    "Australia" := Coord(-37.8497, 144.9680),
    "China" := Coord(31.3389, 121.2200),
    "Japan" := Coord(34.8431, 136.5412),
    "Miami" := Coord(25.9581, -80.2389),
    "Italy" := Coord(44.3439, 11.7167),
    "Monaco" := Coord(43.7347, 7.4206),
    "Spain" := Coord(41.5700, 2.2611),
    "Canada" := Coord(45.5017, -73.5228),
    "Austria" := Coord(47.2197, 14.7647),
    "United Kingdom" := Coord(52.0786, -1.0169),
    "Hungary" := Coord(47.5789, 19.2486),
    "Belgium" := Coord(50.4372, 5.9714),
    "Netherlands" := Coord(52.3788, 4.5402),
    "Italy (Monza)" := Coord(45.6156, 9.2811),
    "Azerbaijan" := Coord(40.3725, 49.8533),
    "Singapore" := Coord(1.2914, 103.8640),
    "United States" := Coord(30.1327, -97.6351),
    "Mexico" := Coord(19.4042, -99.0907),
    "Brazil" := Coord(-23.7036, -46.6997),
    "Qatar" := Coord(25.4901, 51.4542),
    "Abu Dhabi" := Coord(24.4672, 54.6031)
  ]

  /** `COUNTRY_COORDINATES`: the coarse fallback keyed by country name. */
  const CountryCoordinates: map<string, Coord> := map[
    "Bahrain" := Coord(26.0325, 50.5106),
    "Saudi Arabia" := Coord(21.6319, 39.1044),
    "Australia" := Coord(-37.8497, 144.9680),
    "China" := Coord(31.3389, 121.2200),
    "Japan" := Coord(34.8431, 136.5412),
    "United States" := Coord(39.8283, -98.5795),
    "Italy" := Coord(44.3439, 11.7167),
    "Monaco" := Coord(43.7347, 7.4206),
    "Spain" := Coord(41.5700, 2.2611),
    "Canada" := Coord(45.5017, -73.5228),
    "Austria" := Coord(47.2197, 14.7647),
    "United Kingdom" := Coord(52.0786, -1.0169),
    "Hungary" := Coord(47.5789, 19.2486),
    "Belgium" := Coord(50.4372, 5.9714),
    "Netherlands" := Coord(52.3788, 4.5402),
    "Azerbaijan" := Coord(40.3725, 49.8533),
    "Singapore" := Coord(1.2914, 103.8640),
    "Mexico" := Coord(19.4042, -99.0907),
    "Brazil" := Coord(-23.7036, -46.6997),
    "Qatar" := Coord(25.4901, 51.4542),
    "United Arab Emirates" := Coord(24.4672, 54.6031)
  ]

  /** The point returned when no table knows the venue. */
  const DefaultCoord := Coord(20.0, 0.0)

  /** Every entry of the circuit table is a valid geographic point. */
  lemma CircuitTableInBounds()
    ensures forall k :: k in CircuitCoordinates ==> InBounds(CircuitCoordinates[k])
  {
  }

  /** Every entry of the country table is a valid geographic point. */
  lemma CountryTableInBounds()
    ensures forall k :: k in CountryCoordinates ==> InBounds(CountryCoordinates[k])
  {
  }

  /**
   * `getRaceCoordinates`: first the circuit, then the location (both in the
   * circuit table), then the country (in the country table), else the
   * default point. The resolver is total and its result is always a valid
   * geographic point.
   */
  function RaceCoordinates(race: Race): (c: Coord)
    ensures InBounds(c)
    ensures race.circuit in CircuitCoordinates ==>
              c == CircuitCoordinates[race.circuit]
    ensures race.circuit !in CircuitCoordinates && race.location in CircuitCoordinates ==>
              c == CircuitCoordinates[race.location]
    ensures race.circuit !in CircuitCoordinates && race.location !in CircuitCoordinates &&
            race.country in CountryCoordinates ==>
              c == CountryCoordinates[race.country]
    ensures race.circuit !in CircuitCoordinates && race.location !in CircuitCoordinates &&
            race.country !in CountryCoordinates ==>
              c == DefaultCoord
  {
    CircuitTableInBounds();
    CountryTableInBounds();
    if race.circuit in CircuitCoordinates then CircuitCoordinates[race.circuit]
    else if race.location in CircuitCoordinates then CircuitCoordinates[race.location]
    else if race.country in CountryCoordinates then CountryCoordinates[race.country]
    else DefaultCoord
  }

  /** A race with the given venue fields and placeholder scheduling data. */
  function Venue(circuit: string, location: string, country: string): Race {
    Race(1, "", "", circuit, location, country, 1, "", 2025)
  }

  /** A mapped circuit wins whatever the location and country say. */
  lemma CircuitTierWins()
    ensures RaceCoordinates(Venue("Monaco", "Bahrain", "Japan")) == Coord(43.7347, 7.4206)
  {
  }

  /** "United States" as a location is looked up in the circuit table (Austin). */
  lemma LocationUsesCircuitTable()
    ensures RaceCoordinates(Venue("", "United States", "Mexico")) == Coord(30.1327, -97.6351)
  {
  }

  /** "United States" as a country is looked up in the country table (its centroid). */
  lemma CountryUsesCountryTable()
    ensures RaceCoordinates(Venue("", "", "United States")) == Coord(39.8283, -98.5795)
  {
  }

  /** An unmapped circuit and location fall back to the country: Japan. */
  lemma CountryFallbackJapan()
    ensures RaceCoordinates(Venue("", "", "Japan")) == Coord(34.8431, 136.5412)
  {
  }

  /** A venue no table knows resolves to the default point (20, 0). */
  lemma UnmappedVenueDefault()
    ensures RaceCoordinates(Venue("", "", "")) == Coord(20.0, 0.0)
  {
  }

  /** The two tables disagree on "United States", so the tier order is observable. */
  lemma TablesDisagreeOnUnitedStates()
    ensures "United States" in CircuitCoordinates && "United States" in CountryCoordinates
    ensures CircuitCoordinates["United States"] != CountryCoordinates["United States"]
  {
  }

  // ---------------------------------------------------------------------
  // Markers
  // ---------------------------------------------------------------------

  /** The numeric part of the Leaflet icon built by `createRedCircleMarker`. */
  datatype MarkerIcon = MarkerIcon(
    radius: real,
    borderWidth: int,
    iconSize: (real, real),
    iconAnchor: (real, real))

  /** The base size every rendered marker is created with. */
  const MarkerSize: real := 12.0

  /**
   * `createRedCircleMarker(size, isSelected)`: a selected marker is half as
   * large again and has a thicker border; the icon is a square twice the
   * radius wide, anchored at its centre.
   */
  function CreateRedCircleMarker(size: real, isSelected: bool): (m: MarkerIcon)
    ensures m.borderWidth == 4 <==> isSelected
    ensures isSelected ==> 2.0 * m.radius == 3.0 * size
    ensures !isSelected ==> m.radius == size && m.borderWidth == 3
    ensures m.iconSize == (2.0 * m.radius, 2.0 * m.radius) && m.iconAnchor == (m.radius, m.radius)
    ensures m.iconSize.0 == m.iconSize.1
    ensures 2.0 * m.iconAnchor.0 == m.iconSize.0 && 2.0 * m.iconAnchor.1 == m.iconSize.1
    ensures size > 0.0 ==> (isSelected <==> m.radius > size)
  {
    var radius := if isSelected then size * 1.5 else size;
    var borderWidth := if isSelected then 4 else 3;
    MarkerIcon(radius, borderWidth, (radius * 2.0, radius * 2.0), (radius, radius))
  }

  /**
   * A selected marker stands out from an unselected one of the same size:
   * a larger circle, a larger icon and a thicker border, and both icons are
   * centred on the venue.
   */
  lemma SelectedMarkerStandsOut(size: real)
    requires size > 0.0
    ensures CreateRedCircleMarker(size, true).radius > CreateRedCircleMarker(size, false).radius
    ensures CreateRedCircleMarker(size, true).iconSize.0 > CreateRedCircleMarker(size, false).iconSize.0
    ensures CreateRedCircleMarker(size, true).borderWidth > CreateRedCircleMarker(size, false).borderWidth
  {
  }

  /** With the default size, selected markers have radius 18 and unselected ones radius 12. */
  lemma DefaultMarkerSizes()
    ensures CreateRedCircleMarker(MarkerSize, true).radius == 18.0
    ensures CreateRedCircleMarker(MarkerSize, true).iconSize == (36.0, 36.0)
    ensures CreateRedCircleMarker(MarkerSize, false).radius == 12.0
    ensures CreateRedCircleMarker(MarkerSize, false).iconSize == (24.0, 24.0)
    ensures CreateRedCircleMarker(MarkerSize, true).borderWidth == 4
    ensures CreateRedCircleMarker(MarkerSize, false).borderWidth == 3
  {
  }

  /** `race.raceId === selectedRaceId`; a `null` selection matches no race. */
  predicate IsSelected(race: Race, selectedRaceId: Option<int>) {
    selectedRaceId == Some(race.raceId)
  }

  /** One rendered `Marker`: the race it belongs to, where it stands and its icon. */
  datatype MarkerView = MarkerView(raceId: int, position: Coord, icon: MarkerIcon)

  /** The marker layer: one marker per race, in list order. */
  function Markers(races: seq<Race>, selectedRaceId: Option<int>): (ms: seq<MarkerView>)
    ensures |ms| == |races|
    ensures forall i :: 0 <= i < |ms| ==>
              ms[i].raceId == races[i].raceId && ms[i].position == RaceCoordinates(races[i])
    ensures forall i :: 0 <= i < |ms| ==>
              (ms[i].icon.borderWidth == 4 <==> selectedRaceId == Some(races[i].raceId))
    ensures forall i :: 0 <= i < |ms| ==>
              ms[i].icon.radius == if selectedRaceId == Some(races[i].raceId)
                                   then 1.5 * MarkerSize else MarkerSize
  {
    seq(|races|, i requires 0 <= i < |races| =>
      MarkerView(races[i].raceId, RaceCoordinates(races[i]),
                 CreateRedCircleMarker(MarkerSize, IsSelected(races[i], selectedRaceId))))
  }

  // ---------------------------------------------------------------------
  // Centroid
  // ---------------------------------------------------------------------

  /** `xs.reduce((sum, x) => sum + x, 0)`: a left fold from zero. */
  function Sum(xs: seq<real>): real {
    if xs == [] then 0.0 else Sum(xs[..|xs| - 1]) + xs[|xs| - 1]
  }

  /** The arithmetic mean of a non-empty sequence. */
  function Mean(xs: seq<real>): real
    requires |xs| > 0
  {
    Sum(xs) / (|xs| as real)
  }

  /** The smallest element. */
  function Min(xs: seq<real>): (m: real)
    requires |xs| > 0
    ensures m in xs
    ensures forall i :: 0 <= i < |xs| ==> m <= xs[i]
  {
    if |xs| == 1 then xs[0]
    else
      var rest := Min(xs[1..]);
      assert forall i :: 1 <= i < |xs| ==> xs[i] == xs[1..][i - 1];
      if xs[0] <= rest then xs[0] else rest
  }

  /** The largest element. */
  function Max(xs: seq<real>): (m: real)
    requires |xs| > 0
    ensures m in xs
    ensures forall i :: 0 <= i < |xs| ==> xs[i] <= m
  {
    if |xs| == 1 then xs[0]
    else
      var rest := Max(xs[1..]);
      assert forall i :: 1 <= i < |xs| ==> xs[i] == xs[1..][i - 1];
      if xs[0] >= rest then xs[0] else rest
  }

  /** A sum of values in [lo, hi] lies between |xs|·lo and |xs|·hi. */
  lemma {:induction false} SumBounds(xs: seq<real>, lo: real, hi: real)
    requires forall i :: 0 <= i < |xs| ==> lo <= xs[i] <= hi
    ensures (|xs| as real) * lo <= Sum(xs) <= (|xs| as real) * hi
  {
    if xs != [] {
      var init := xs[..|xs| - 1];
      assert forall i :: 0 <= i < |init| ==> init[i] == xs[i];
      SumBounds(init, lo, hi);
      assert (|xs| as real) * lo == (|init| as real) * lo + lo;
      assert (|xs| as real) * hi == (|init| as real) * hi + hi;
    }
  }

  /** A mean of values in [lo, hi] lies in [lo, hi]. */
  lemma MeanBounds(xs: seq<real>, lo: real, hi: real)
    requires |xs| > 0
    requires forall i :: 0 <= i < |xs| ==> lo <= xs[i] <= hi
    ensures lo <= Mean(xs) <= hi
  {
    SumBounds(xs, lo, hi);
    var n := |xs| as real;
    assert Mean(xs) * n == Sum(xs);
  }

  /** The mean lies between the smallest and the largest element. */
  lemma MeanBetweenExtremes(xs: seq<real>)
    requires |xs| > 0
    ensures Min(xs) <= Mean(xs) <= Max(xs)
  {
    MeanBounds(xs, Min(xs), Max(xs));
  }

  /** `races.map(r => getRaceCoordinates(r))`. */
  function CoordsOf(races: seq<Race>): (cs: seq<Coord>)
    ensures |cs| == |races|
    ensures forall i :: 0 <= i < |cs| ==> cs[i] == RaceCoordinates(races[i]) && InBounds(cs[i])
  {
    seq(|races|, i requires 0 <= i < |races| => RaceCoordinates(races[i]))
  }

  /** The latitude column. */
  function Lats(cs: seq<Coord>): (xs: seq<real>)
    ensures |xs| == |cs| && forall i :: 0 <= i < |cs| ==> xs[i] == cs[i].lat
  {
    seq(|cs|, i requires 0 <= i < |cs| => cs[i].lat)
  }

  /** The longitude column. */
  function Lngs(cs: seq<Coord>): (xs: seq<real>)
    ensures |xs| == |cs| && forall i :: 0 <= i < |cs| ==> xs[i] == cs[i].lng
  {
    seq(|cs|, i requires 0 <= i < |cs| => cs[i].lng)
  }

  /**
   * The overview centre: mean latitude and mean longitude, each taken
   * independently. Each component lies between the smallest and largest
   * value of that component, so a centroid of valid points is valid.
   */
  function Centroid(cs: seq<Coord>): (c: Coord)
    requires |cs| > 0
    ensures c == Coord(Mean(Lats(cs)), Mean(Lngs(cs)))
    ensures Min(Lats(cs)) <= c.lat <= Max(Lats(cs))
    ensures Min(Lngs(cs)) <= c.lng <= Max(Lngs(cs))
    ensures (forall i :: 0 <= i < |cs| ==> InBounds(cs[i])) ==> InBounds(c)
  {
    MeanBetweenExtremes(Lats(cs));
    MeanBetweenExtremes(Lngs(cs));
    var c := Coord(Mean(Lats(cs)), Mean(Lngs(cs)));
    if forall i :: 0 <= i < |cs| ==> InBounds(cs[i]) then
      MeanBounds(Lats(cs), -90.0, 90.0);
      MeanBounds(Lngs(cs), -180.0, 180.0);
      c
    else
      c
  }

  /** Two races at (0, 0) and (10, 10) are framed around (5, 5). */
  lemma CentroidExample()
    ensures Centroid([Coord(0.0, 0.0), Coord(10.0, 10.0)]) == Coord(5.0, 5.0)
  {
    var cs := [Coord(0.0, 0.0), Coord(10.0, 10.0)];
    assert Lats(cs) == [0.0, 10.0];
    assert Lngs(cs) == [0.0, 10.0];
    assert [0.0, 10.0][..1] == [0.0];
    assert [0.0][..0] == [];
    assert Sum([0.0, 10.0]) == 10.0;
  }

  // ---------------------------------------------------------------------
  // Camera target
  // ---------------------------------------------------------------------

  /** A camera position: centre and zoom level. */
  datatype View = View(center: Coord, zoom: int)

  /** Zoom used when one race is focused. */
  const FocusedZoom: int := 6
  /** Zoom used for the whole-season overview, and the map's initial zoom. */
  const OverviewZoom: int := 2

  /**
   * The camera position the `MapController` effect requests, or `None` when
   * it calls no `setView` at all:
   *  - Focused: a truthy identifier found in `races` frames that race at zoom 6;
   *  - Overview: a falsy identifier and a non-empty list frame the centroid at zoom 2;
   *  - otherwise (truthy but unknown identifier, or falsy with no races) nothing moves.
   */
  function ComputeTarget(races: seq<Race>, selectedRaceId: Option<int>): (t: Option<View>)
    ensures IsTruthyId(selectedRaceId) && HasRace(races, selectedRaceId.value) ==>
              t == Some(View(RaceCoordinates(FindRace(races, selectedRaceId.value).value), FocusedZoom))
    ensures !IsTruthyId(selectedRaceId) && |races| > 0 ==>
              t == Some(View(Centroid(CoordsOf(races)), OverviewZoom))
    ensures t.None? <==>
              (IsTruthyId(selectedRaceId) && !HasRace(races, selectedRaceId.value)) ||
              (!IsTruthyId(selectedRaceId) && |races| == 0)
    ensures t.Some? ==> InBounds(t.value.center)
  {
    if IsTruthyId(selectedRaceId) then
      match FindRace(races, selectedRaceId.value)
      case Some(race) => Some(View(RaceCoordinates(race), FocusedZoom))
      case None => None
    else if |races| > 0 then
      Some(View(Centroid(CoordsOf(races)), OverviewZoom))
    else
      None
  }

  /**
   * A focused camera is centred on a marker that is drawn as selected: the
   * marker of the first race carrying the selected identifier.
   */
  lemma FocusedOnSelectedMarker(races: seq<Race>, selectedRaceId: Option<int>)
    requires IsTruthyId(selectedRaceId) && HasRace(races, selectedRaceId.value)
    ensures ComputeTarget(races, selectedRaceId).Some?
    ensures var ms := Markers(races, selectedRaceId);
            exists i :: 0 <= i < |ms| && ms[i].icon.borderWidth == 4 &&
                        ms[i].position == ComputeTarget(races, selectedRaceId).value.center
  {
    var k := FindIndex(races, selectedRaceId.value).value;
    var ms := Markers(races, selectedRaceId);
    assert ms[k].icon.borderWidth == 4;
  }

  /**
   * A race whose identifier is 0 is highlighted when selected, yet the
   * camera treats the selection as empty and shows the overview.
   */
  lemma ZeroIdentifierIsNoSelection(races: seq<Race>)
    requires |races| > 0 && races[0].raceId == 0
    ensures Markers(races, Some(0))[0].icon.borderWidth == 4
    ensures ComputeTarget(races, Some(0)) == ComputeTarget(races, None)
    ensures ComputeTarget(races, Some(0)).value.zoom == OverviewZoom
  {
  }

  /** The map's initial centre: the first race's venue, or the default point for no races. */
  function InitialCenter(races: seq<Race>): (c: Coord)
    ensures |races| > 0 ==> c == RaceCoordinates(races[0])
    ensures |races| == 0 ==> c == DefaultCoord
    ensures InBounds(c)
  {
    if |races| > 0 then RaceCoordinates(races[0]) else DefaultCoord
  }

  /**
   * The Leaflet map camera, which `MapController` moves with `setView`.
   * Its centre is always a valid geographic point.
   */
  class Camera {
    var center: Coord
    var zoom: int

    ghost predicate Valid()
      reads this
    {
      InBounds(center) && (zoom == OverviewZoom || zoom == FocusedZoom)
    }

    /** `<MapContainer center={initialCoords} zoom={2}>`. */
    constructor (races: seq<Race>)
      ensures Valid()
      ensures center == InitialCenter(races) && zoom == OverviewZoom
    {
      center := InitialCenter(races);
      zoom := OverviewZoom;
    }

    /**
     * The `MapController` effect: re-run whenever `races` or
     * `selectedRaceId` changes; it either sets the view to the target or
     * leaves the camera exactly as it was.
     */
    method Sync(races: seq<Race>, selectedRaceId: Option<int>)
      requires Valid()
      modifies this
      ensures Valid()
      ensures match ComputeTarget(races, selectedRaceId)
              case Some(v) => center == v.center && zoom == v.zoom
              case None => center == old(center) && zoom == old(zoom)
    {
      if IsTruthyId(selectedRaceId) {
        var race := FindRace(races, selectedRaceId.value);
        if race.Some? {
          center, zoom := RaceCoordinates(race.value), FocusedZoom;
        }
      } else if |races| > 0 {
        var coords := CoordsOf(races);
        var avgLat := Sum(Lats(coords)) / (|coords| as real);
        var avgLng := Sum(Lngs(coords)) / (|coords| as real);
        center, zoom := Coord(avgLat, avgLng), OverviewZoom;
        assert center == Centroid(coords);
      }
    }
  }
}
