/**
 * The race records shared by the map component and the prediction page
 * (the `RaceInfo` interface, declared identically in both source files),
 * together with the two operations both of them apply to a race list:
 * `Array.prototype.find` by identifier and the truthiness test on a
 * nullable race identifier.
 */
module Races {
  import opened Wrappers

  /** One race of the season as delivered by the race-listing endpoint. */
  datatype Race = Race(
    raceId: int,
    raceLabel: string,  // the source field `label`
    name: string,
    circuit: string,
    location: string,
    country: string,
    round: int,
    date: string,
    year: int)

  /**
   * JavaScript truthiness of a `number | null` identifier: `null` and `0`
   * are falsy, every other number is truthy. (NaN is not an integer and
   * cannot occur here.)
   */
  predicate IsTruthyId(id: Option<int>) {
    id.Some? && id.value != 0
  }

  /** Some race of `races` carries identifier `id`. */
  predicate HasRace(races: seq<Race>, id: int) {
    exists i :: 0 <= i < |races| && races[i].raceId == id
  }

  /**
   * The index of the first race whose `raceId` equals `id`, the search
   * that `races.find(r => r.raceId === id)` performs.
   */
  function FindIndex(races: seq<Race>, id: int): (k: Option<nat>)
    ensures k.None? <==> !HasRace(races, id)
    ensures k.Some? ==> k.value < |races| && races[k.value].raceId == id
    ensures k.Some? ==> forall j :: 0 <= j < k.value ==> races[j].raceId != id
  {
    if races == [] then None
    else if races[0].raceId == id then Some(0)
    else
      match FindIndex(races[1..], id)
      case None =>
        assert forall i :: 1 <= i < |races| ==> races[i] == races[1..][i - 1];
        None
      case Some(k) => Some(k + 1)
  }

  /** `races.find(r => r.raceId === id)`: the first race with that identifier, if any. */
  function FindRace(races: seq<Race>, id: int): (r: Option<Race>)
    ensures r.None? <==> !HasRace(races, id)
    ensures r.Some? ==> r.value.raceId == id && r.value in races
    ensures r.Some? ==> r == Some(races[FindIndex(races, id).value])
  {
    match FindIndex(races, id)
    case None => None
    case Some(k) => Some(races[k])
  }
}
