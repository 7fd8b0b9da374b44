/** The logic of the main map screen: which point is selected for saving (a pinned car
    or a nearby parking spot, never both), the nearby parking markers, the address and
    document a save writes, the timer's text fields and the remaining-time label.

    Places, location and store calls are replaced by their outcomes, passed in as
    parameters. Coordinates are carried, never computed with. */
module ParkingScreen {
  import opened Kotlin
  import opened Firestore
  import opened ParkingTimer

  /** A map position. */
  datatype LatLng = LatLng(latitude: real, longitude: real)

  /** A nearby parking place shown as a marker. */
  datatype ParkingSpot = ParkingSpot(latLng: LatLng, name: Option<string>)

  /** An autocomplete prediction: the id of the place it suggests. */
  datatype Prediction = Prediction(placeId: string)

  /** The fields of a fetched place; each is null when the place has none or when it
      was not requested. */
  datatype Place = Place(latLng: Option<LatLng>, name: Option<string>, address: Option<string>)

  /** The outcome of fetching the place with a given id. */
  type PlaceFetcher = string -> Outcome<Place>

  const MAX_MARKERS := 5
  const UNKNOWN_ADDRESS := "Unknown address"
  const NO_SPOTS_FOUND := "No parking spots found nearby"
  const NEARBY_FAILED_PREFIX := "Error fetching parking locations: "

  // ---------------------------------------------------------------------------
  // Nearby parking markers
  // ---------------------------------------------------------------------------

  /** The marker for one prediction: its place, when the fetch succeeds and the place
      has a position, named after the place. */
  function SpotOf(prediction: Prediction, fetchPlace: PlaceFetcher): (r: Option<ParkingSpot>)
    ensures r.Some? <==> fetchPlace(prediction.placeId).Ok? && fetchPlace(prediction.placeId).value.latLng.Some?
    ensures r.Some? ==> var place := fetchPlace(prediction.placeId).value;
                        r.value == ParkingSpot(place.latLng.value, place.name)
  {
    match fetchPlace(prediction.placeId)
    case Err(_) => None
    case Ok(place) =>
      match place.latLng
      case None => None
      case Some(position) => Some(ParkingSpot(position, place.name))
  }

  /** The markers of all predictions, in prediction order, skipping those without one
      (`mapNotNull`). */
  function CollectSpots(predictions: seq<Prediction>, fetchPlace: PlaceFetcher): (spots: seq<ParkingSpot>)
    ensures |spots| <= |predictions|
    ensures forall s :: s in spots ==> exists p :: p in predictions && SpotOf(p, fetchPlace) == Some(s)
  {
    if predictions == [] then []
    else
      var rest := CollectSpots(predictions[1..], fetchPlace);
      match SpotOf(predictions[0], fetchPlace)
      case None => rest
      case Some(s) => [s] + rest
  }

  /** Skipping predictions keeps the order of the rest. */
  lemma {:induction false} CollectSpotsAppend(a: seq<Prediction>, b: seq<Prediction>, fetchPlace: PlaceFetcher)
    ensures CollectSpots(a + b, fetchPlace) == CollectSpots(a, fetchPlace) + CollectSpots(b, fetchPlace)
  {
    if a == [] {
      assert a + b == b;
    } else {
      assert (a + b)[0] == a[0] && (a + b)[1..] == a[1..] + b;
      CollectSpotsAppend(a[1..], b, fetchPlace);
      match SpotOf(a[0], fetchPlace) {
        case None =>
        case Some(s) =>
          assert CollectSpots(a + b, fetchPlace) == [s] + (CollectSpots(a[1..], fetchPlace) + CollectSpots(b, fetchPlace));
      }
    }
  }

  /** Every prediction whose place has a position gives a collected marker. */
  lemma {:induction false} LocatedPredictionsCollected(predictions: seq<Prediction>, fetchPlace: PlaceFetcher)
    ensures forall i :: 0 <= i < |predictions| && SpotOf(predictions[i], fetchPlace).Some? ==>
              SpotOf(predictions[i], fetchPlace).value in CollectSpots(predictions, fetchPlace)
  {
    if predictions != [] {
      LocatedPredictionsCollected(predictions[1..], fetchPlace);
      assert forall i :: 1 <= i < |predictions| ==> predictions[1..][i - 1] == predictions[i];
    }
  }

  /** No marker is collected exactly when no prediction's place has a position. */
  lemma {:induction false} CollectSpotsEmptyIff(predictions: seq<Prediction>, fetchPlace: PlaceFetcher)
    ensures CollectSpots(predictions, fetchPlace) == [] <==> forall p :: p in predictions ==> SpotOf(p, fetchPlace).None?
  {
    if predictions != [] {
      CollectSpotsEmptyIff(predictions[1..], fetchPlace);
      forall p | p in predictions[1..] ensures p in predictions { }
      if SpotOf(predictions[0], fetchPlace).None? {
        assert forall p :: p in predictions ==> p == predictions[0] || p in predictions[1..];
      }
    }
  }

  /** When every prediction's place has a position, the i-th marker is the i-th
      prediction's. */
  lemma {:induction false} CollectSpotsOfLocatedPredictions(predictions: seq<Prediction>, fetchPlace: PlaceFetcher)
    requires forall i :: 0 <= i < |predictions| ==> SpotOf(predictions[i], fetchPlace).Some?
    ensures |CollectSpots(predictions, fetchPlace)| == |predictions|
    ensures forall i :: 0 <= i < |predictions| ==> Some(CollectSpots(predictions, fetchPlace)[i]) == SpotOf(predictions[i], fetchPlace)
  {
    if predictions != [] {
      CollectSpotsOfLocatedPredictions(predictions[1..], fetchPlace);
      assert forall i :: 1 <= i < |predictions| ==> predictions[1..][i - 1] == predictions[i];
    }
  }

  /** The markers shown: the first five collected (`take(5)`). */
  function NearbyMarkers(predictions: seq<Prediction>, fetchPlace: PlaceFetcher): (markers: seq<ParkingSpot>)
    ensures |markers| <= MAX_MARKERS
    ensures markers <= CollectSpots(predictions, fetchPlace)
    ensures |markers| == MAX_MARKERS || markers == CollectSpots(predictions, fetchPlace)
  {
    var spots := CollectSpots(predictions, fetchPlace);
    if |spots| <= MAX_MARKERS then spots else spots[..MAX_MARKERS]
  }

  /** No marker is shown, and the screen reports that none was found, exactly when no
      prediction's place has a position. */
  lemma NearbyMarkersEmptyIff(predictions: seq<Prediction>, fetchPlace: PlaceFetcher)
    ensures NearbyMarkers(predictions, fetchPlace) == [] <==> forall p :: p in predictions ==> SpotOf(p, fetchPlace).None?
  {
    CollectSpotsEmptyIff(predictions, fetchPlace);
  }

  /** Once five markers have been collected, later predictions change nothing. */
  lemma LaterPredictionsIgnored(predictions: seq<Prediction>, k: nat, fetchPlace: PlaceFetcher)
    requires k <= |predictions|
    requires |CollectSpots(predictions[..k], fetchPlace)| >= MAX_MARKERS
    ensures NearbyMarkers(predictions, fetchPlace) == NearbyMarkers(predictions[..k], fetchPlace)
  {
    assert predictions == predictions[..k] + predictions[k..];
    CollectSpotsAppend(predictions[..k], predictions[k..], fetchPlace);
  }

  // ---------------------------------------------------------------------------
  // Address lookup
  // ---------------------------------------------------------------------------

  /** The lookup found an address: the first address prediction's place was fetched
      and has an address. */
  predicate AddressFound(predictions: Outcome<seq<Prediction>>, fetchPlace: PlaceFetcher, address: string) {
    predictions.Ok? && |predictions.value| > 0 &&
    fetchPlace(predictions.value[0].placeId).Ok? &&
    fetchPlace(predictions.value[0].placeId).value.address == Some(address)
  }

  /** The address of a position, from the outcomes of the address prediction request
      around it and of fetching the first predicted place. Every failure, a missing
      prediction and a missing address all give "Unknown address". */
  function AddressFromLookup(predictions: Outcome<seq<Prediction>>, fetchPlace: PlaceFetcher): (address: string)
    ensures forall a :: AddressFound(predictions, fetchPlace, a) ==> address == a
    ensures address == UNKNOWN_ADDRESS || AddressFound(predictions, fetchPlace, address)
  {
    match predictions
    case Err(_) => UNKNOWN_ADDRESS
    case Ok(list) =>
      if |list| == 0 then UNKNOWN_ADDRESS
      else
        match fetchPlace(list[0].placeId)
        case Err(_) => UNKNOWN_ADDRESS
        case Ok(place) =>
          match place.address
          case None => UNKNOWN_ADDRESS
          case Some(a) => a
  }

  // ---------------------------------------------------------------------------
  // Saving a location
  // ---------------------------------------------------------------------------

  /** The position a save uses: the pinned car, else the selected spot's position. */
  function SaveTarget(parkedCarLocation: Option<LatLng>, selectedParkingSpot: Option<ParkingSpot>): (target: Option<LatLng>)
    ensures target.Some? <==> parkedCarLocation.Some? || selectedParkingSpot.Some?
    ensures parkedCarLocation.Some? ==> target == parkedCarLocation
    ensures parkedCarLocation.None? && selectedParkingSpot.Some? ==> target == Some(selectedParkingSpot.value.latLng)
  {
    if parkedCarLocation.Some? then parkedCarLocation
    else if selectedParkingSpot.Some? then Some(selectedParkingSpot.value.latLng)
    else None
  }

  /** The address a save records: the selected spot's name, else the looked-up one. */
  function SaveAddress(selectedParkingSpot: Option<ParkingSpot>, lookedUp: string): (address: string)
    ensures selectedParkingSpot.Some? && selectedParkingSpot.value.name.Some? ==>
              address == selectedParkingSpot.value.name.value
    ensures (selectedParkingSpot.None? || selectedParkingSpot.value.name.None?) ==> address == lookedUp
  {
    if selectedParkingSpot.Some? && selectedParkingSpot.value.name.Some? then selectedParkingSpot.value.name.value
    else lookedUp
  }

  /** The fields of the history document a save adds: the address under "adress", the
      server's time under "date" and a fresh random id under "id". */
  function HistoryFields(address: string, uuid: string): (fields: map<string, FieldValue>)
    ensures fields.Keys == {"adress", "date", "id"}
    ensures fields["adress"] == StringValue(address)
    ensures fields["date"] == ServerTimestamp
    ensures fields["id"] == StringValue(uuid)
  {
    map["adress" := StringValue(address), "date" := ServerTimestamp, "id" := StringValue(uuid)]
  }

  // ---------------------------------------------------------------------------
  // The timer card
  // ---------------------------------------------------------------------------

  /** The value a timer text field stores: its text read as an `Int`, or 0 when the text
      is not a numeral or does not fit. */
  function FieldInput(text: string): (n: Int32)
    ensures !IsNumeral(text) ==> n == 0
    ensures IsNumeral(text) && !InInt32(NumeralValue(text)) ==> n == 0
    ensures IsNumeral(text) && InInt32(NumeralValue(text)) ==> n == NumeralValue(text)
  {
    match ToIntOrNull(text)
    case Some(v) => v
    case None => 0
  }

  /** A field shows its value with `toString`; reading that text back stores the same
      value. */
  lemma FieldInputOfShownValue(n: Int32)
    ensures FieldInput(IntToString(n)) == n
  {
    ToIntOrNullOfToString(n);
  }

  method OnHoursChanged(viewModel: ParkingViewModel, text: string)
    requires viewModel.Valid()
    modifies viewModel
    ensures viewModel.Valid()
    ensures viewModel.parkingData == old(viewModel.parkingData).(hours := FieldInput(text))
    ensures viewModel.activeTimer == old(viewModel.activeTimer)
  {
    viewModel.UpdateHours(FieldInput(text));
  }

  method OnMinutesChanged(viewModel: ParkingViewModel, text: string)
    requires viewModel.Valid()
    modifies viewModel
    ensures viewModel.Valid()
    ensures viewModel.parkingData == old(viewModel.parkingData).(minutes := FieldInput(text))
    ensures viewModel.activeTimer == old(viewModel.activeTimer)
  {
    viewModel.UpdateMinutes(FieldInput(text));
  }

  method OnSecondsChanged(viewModel: ParkingViewModel, text: string)
    requires viewModel.Valid()
    modifies viewModel
    ensures viewModel.Valid()
    ensures viewModel.parkingData == old(viewModel.parkingData).(seconds := FieldInput(text))
    ensures viewModel.activeTimer == old(viewModel.activeTimer)
  {
    viewModel.UpdateSeconds(FieldInput(text));
  }

  /** Hours, minutes and seconds as the remaining-time label shows them. */
  datatype Clock = Clock(hours: int, minutes: int, seconds: int)

  lemma SplitNonNegative(u: nat)
    ensures (u / 3600) * 3600 + ((u % 3600) / 60) * 60 + u % 60 == u
    ensures u % 60 == (u % 3600) % 60
  {
    var h, r := u / 3600, u % 3600;
    assert u == 3600 * h + r;
    assert 3600 * h == 60 * (60 * h);
    assert (60 * (60 * h) + r) % 60 == r % 60;
  }

  /** The label's split of the time left, with `Long` `/` and `%`: the three parts add
      back up to it, and minutes and seconds stay within a minute and an hour (all
      three carry the sign of the time left). */
  function RemainingTime(timeLeftInSeconds: Int64): (c: Clock)
    ensures c.hours * 3600 + c.minutes * 60 + c.seconds == timeLeftInSeconds
    ensures 0 <= timeLeftInSeconds ==> 0 <= c.hours && 0 <= c.minutes < 60 && 0 <= c.seconds < 60
    ensures timeLeftInSeconds < 0 ==> c.hours <= 0 && -60 < c.minutes <= 0 && -60 < c.seconds <= 0
  {
    var t: int := timeLeftInSeconds;
    var c := Clock(Quot(t, 3600), Quot(Rem(t, 3600), 60), Rem(t, 60));
    SplitNonNegative(if t >= 0 then t else -t);
    c
  }

  /** Right after a start with an entry already in canonical form (minutes and seconds
      below 60), the label shows exactly what was entered. */
  lemma RemainingTimeAfterStart(h: Int32, m: Int32, s: Int32)
    requires 0 <= h && 0 <= m < 60 && 0 <= s < 60
    requires InInt32(h * 3600 + m * 60 + s)
    ensures RemainingTime(TotalSeconds(h, m, s)) == Clock(h, m, s)
  {
  }

  // ---------------------------------------------------------------------------
  // Selection state
  // ---------------------------------------------------------------------------

  class ParkingScreenState {
    var parkedCarLocation: Option<LatLng>
    var selectedParkingSpot: Option<ParkingSpot>
    var parkingMarkers: seq<ParkingSpot>
    var mapError: Option<string>

    /** At most one of the pinned car and the selected spot is set, and at most five
        markers are shown. */
    ghost predicate Valid()
      reads this
    {
      !(parkedCarLocation.Some? && selectedParkingSpot.Some?) &&
      |parkingMarkers| <= MAX_MARKERS
    }

    constructor ()
      ensures Valid()
      ensures parkedCarLocation == None && selectedParkingSpot == None
      ensures parkingMarkers == [] && mapError == None
    {
      parkedCarLocation := None;
      selectedParkingSpot := None;
      parkingMarkers := [];
      mapError := None;
    }

    /** The Save button is shown exactly when something is selected. */
    predicate SaveVisible()
      reads this
    {
      parkedCarLocation.Some? || selectedParkingSpot.Some?
    }

    /** A long click on the map pins the car there and drops the selected spot. */
    method OnMapLongClick(latLng: LatLng)
      requires Valid()
      modifies this
      ensures Valid() && SaveVisible()
      ensures parkedCarLocation == Some(latLng) && selectedParkingSpot == None
      ensures parkingMarkers == old(parkingMarkers) && mapError == old(mapError)
    {
      parkedCarLocation := Some(latLng);
      selectedParkingSpot := None;
    }

    /** A click on a parking marker selects its spot and drops the pinned car. */
    method OnMarkerClick(spot: ParkingSpot)
      requires Valid()
      modifies this
      ensures Valid() && SaveVisible()
      ensures selectedParkingSpot == Some(spot) && parkedCarLocation == None
      ensures parkingMarkers == old(parkingMarkers) && mapError == old(mapError)
    {
      selectedParkingSpot := Some(spot);
      parkedCarLocation := None;
    }

    /** The nearby-parking request completes: on success the markers are replaced (and
        an error shown when there are none); on failure the error is shown and the
        markers are kept. */
    method OnNearbyPredictions(response: Outcome<seq<Prediction>>, fetchPlace: PlaceFetcher)
      requires Valid()
      modifies this
      ensures Valid()
      ensures parkedCarLocation == old(parkedCarLocation) && selectedParkingSpot == old(selectedParkingSpot)
      ensures response.Ok? ==> parkingMarkers == NearbyMarkers(response.value, fetchPlace)
      ensures response.Ok? ==> mapError == if parkingMarkers == [] then Some(NO_SPOTS_FOUND) else old(mapError)
      ensures response.Err? ==> parkingMarkers == old(parkingMarkers)
      ensures response.Err? ==> mapError == Some(NEARBY_FAILED_PREFIX + Render(response.message))
    {
      match response {
        case Ok(predictions) =>
          parkingMarkers := NearbyMarkers(predictions, fetchPlace);
          if parkingMarkers == [] {
            mapError := Some(NO_SPOTS_FOUND);
          }
        case Err(message) =>
          mapError := Some(NEARBY_FAILED_PREFIX + Render(message));
      }
    }

    /** The Save button's action: nothing when nothing is selected; otherwise the
        fields of the history document it adds, with the spot's name or the address
        looked up for the target (from the outcomes of that lookup). */
    method SaveLocation(addressPredictions: Outcome<seq<Prediction>>, fetchPlace: PlaceFetcher, uuid: string)
      returns (written: Option<map<string, FieldValue>>)
      ensures written.Some? <==> SaveVisible()
      ensures written.Some? ==>
                written.value == HistoryFields(SaveAddress(selectedParkingSpot, AddressFromLookup(addressPredictions, fetchPlace)), uuid)
    {
      var target := SaveTarget(parkedCarLocation, selectedParkingSpot);
      if target.None? {
        return None;
      }
      var address: string;
      if selectedParkingSpot.Some? && selectedParkingSpot.value.name.Some? {
        address := selectedParkingSpot.value.name.value;
      } else {
        address := AddressFromLookup(addressPredictions, fetchPlace);
      }
      written := Some(HistoryFields(address, uuid));
    }
  }
}
