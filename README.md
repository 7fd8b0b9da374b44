# Parking3: a Dafny model of the parking locator's logic

Parking3 is an Android app. It shows nearby parking on a map and lets the user pin
where the car is parked. It runs a countdown for the paid parking time and keeps a
history of saved locations in a cloud document store. Most of the app is UI layout and
calls into map, places, authentication and database SDKs. This project models the
three pieces of logic the app owns:

- **The parking countdown** (`ParkingTimer`, from `ParkingViewModel.kt` and
  `ParkingData.kt`). It holds the `ParkingData` snapshot and has the setters,
  `startTimer`, the `onTick` and `onFinish` callbacks, and `cancelTimer`. The platform
  countdown is a slot holding at most one live countdown. Its callbacks arrive as
  events. The view model is a class whose invariant says the published
  `isTimerRunning` flag is true exactly while a countdown is live.
- **The map screen's logic** (`ParkingScreen`, from `ParkingScreen.kt`):
  - the pinned car and the selected parking spot, which are never both set;
  - the nearby markers: every prediction that resolves to a place with a position,
    in order, at most five;
  - the address lookup, where every failure gives "Unknown address";
  - what the Save button writes;
  - the timer text fields, where text that is not an `Int` gives 0;
  - the h/m/s split of the remaining-time label.
- **The history view model** (`History`, from `HistoryViewModel.kt`). A document
  becomes an item only if it has a string `"adress"` and a timestamp `"date"`. A load
  publishes Loading, then Empty, Success(items) or Error. Each awaited store call is two
  events: the launch and the completion.

Two shared modules support these. `Kotlin` holds nullable values, the outcomes of calls
that may throw, 32-bit `Int` wrap-around, truncating `/` and `%`, and `toString` /
`toIntOrNull`. `Firestore` holds documents, typed field values, the typed getters and
server timestamps. `SaveLoad` proves that what the map screen saves is what the history
screen lists.

Four functions stand in for library behaviour and are definitions, not proven claims:
`Kotlin.ToIntOrNull` (`String.toIntOrNull`, an optionally signed run of ASCII digits
whose value fits in `Int`), `Firestore.GetString` and `Firestore.GetTimestamp` (the
typed getters, null when the field is missing or holds another type), and
`Firestore.ResolveServerTimestamps` (the server replaces each timestamp placeholder with
its own clock when a write lands). The properties about them are proved where the app
uses them: `ToIntOrNullOfToString`, `FieldInput`, `ToItem` and `SavedDocumentLoadsBack`.

Behaviour of the code that the model keeps as written:

- `startTimer`'s guard tests the three entered components, not their total. So 1 hour
  and -60 minutes passes the guard and starts a countdown of 0 seconds
  (`GuardAndTotal`).
- The total `hours * 3600 + minutes * 60 + seconds` is computed in 32-bit `Int`, and
  only then widened to `Long`. Each operation wraps on overflow. The model proves this
  equals one wrap of the exact total, and equals the exact total when that fits
  (`TotalSeconds`). 596524 hours gives a negative total (`TotalSecondsOverflows`).
- A tick's `millisUntilFinished / 1000` and the label's `/` and `%` are `Long`
  operations that round toward zero. A negative time left therefore splits into parts
  that are all negative or zero (`RemainingTime`).
- The saved document's id field is ignored when the history is loaded. The item id is
  the document id.

## Model

| member | source | states |
|---|---|---|
| `Kotlin.Wrap32` | Parking3/app/src/main/java/hr/ferit/belic/parking3/viewmodel/ParkingViewModel.kt:46 | an `Int` result is the 32-bit value congruent to the exact one, and equals it when it fits |
| `Kotlin.Quot` | Parking3/app/src/main/java/hr/ferit/belic/parking3/viewmodel/ParkingViewModel.kt:62 | `/` for a positive divisor rounds toward zero: quotient times divisor is within one divisor of the dividend, on the dividend's side |
| `Kotlin.Rem` | Parking3/app/src/main/java/hr/ferit/belic/parking3/view/ParkingScreen.kt:468-469 | `%` for a positive divisor: dividend = quotient * divisor + remainder, with the remainder below the divisor in size and carrying the dividend's sign |
| `Kotlin.NatToString` | Parking3/app/src/main/java/hr/ferit/belic/parking3/view/ParkingScreen.kt:431 | `toString` of a non-negative value is a non-empty string of decimal digits |
| `Kotlin.ToIntOrNullOfToString` | Parking3/app/src/main/java/hr/ferit/belic/parking3/view/ParkingScreen.kt:431-432 | parsing the text `toString` wrote for any `Int` gives that `Int` back |
| `ParkingTimer.TotalSeconds` | Parking3/app/src/main/java/hr/ferit/belic/parking3/viewmodel/ParkingViewModel.kt:46 | the total, computed one wrapping `Int` operation at a time, equals one wrap of the exact total, and equals the exact total when that fits in `Int` |
| `ParkingTimer.SecondsLeft` | Parking3/app/src/main/java/hr/ferit/belic/parking3/viewmodel/ParkingViewModel.kt:60-63 | for a non-negative tick, the seconds left are the whole seconds in `millisUntilFinished`: s*1000 <= ms < s*1000 + 1000 |
| `ParkingTimer.StoppedIdempotent` | Parking3/app/src/main/java/hr/ferit/belic/parking3/viewmodel/ParkingViewModel.kt:80-86 | stopping the timer twice gives the same snapshot as stopping it once, and keeps the configured hours, minutes and seconds |
| `ParkingTimer.GuardAndTotal` | Parking3/app/src/main/java/hr/ferit/belic/parking3/viewmodel/ParkingViewModel.kt:44-46 | an all-zero entry has a zero total; the converse fails: 1 h and -60 min pass the guard with a total of 0 |
| `ParkingTimer.TotalSecondsOverflows` | Parking3/app/src/main/java/hr/ferit/belic/parking3/viewmodel/ParkingViewModel.kt:46 | 596524 hours overflow `Int`, and the widened total is negative |
| `ParkingTimer.ParkingViewModel.constructor` | Parking3/app/src/main/java/hr/ferit/belic/parking3/viewmodel/ParkingViewModel.kt:21-25 | the initial snapshot has all defaults (zero, not running) and no countdown is live |
| `ParkingTimer.ParkingViewModel.UpdateHours` | Parking3/app/src/main/java/hr/ferit/belic/parking3/viewmodel/ParkingViewModel.kt:27-29 | only `hours` changes; the time left, the running flag, minutes, seconds and the live countdown are kept |
| `ParkingTimer.ParkingViewModel.UpdateMinutes` | Parking3/app/src/main/java/hr/ferit/belic/parking3/viewmodel/ParkingViewModel.kt:31-33 | only `minutes` changes; everything else is kept |
| `ParkingTimer.ParkingViewModel.UpdateSeconds` | Parking3/app/src/main/java/hr/ferit/belic/parking3/viewmodel/ParkingViewModel.kt:35-37 | only `seconds` changes; everything else is kept |
| `ParkingTimer.ParkingViewModel.StartTimer` | Parking3/app/src/main/java/hr/ferit/belic/parking3/viewmodel/ParkingViewModel.kt:39-78 | with all three components zero nothing changes. Otherwise the time left becomes the `Int` total and the timer is marked running, with h/m/s kept. The previous countdown is replaced by exactly one new live countdown of total*1000 ms that ticks every 1000 ms |
| `ParkingTimer.ParkingViewModel.OnTick` | Parking3/app/src/main/java/hr/ferit/belic/parking3/viewmodel/ParkingViewModel.kt:60-64 | a tick sets the time left to `SecondsLeft(ms)` and changes nothing else |
| `ParkingTimer.ParkingViewModel.OnFinish` | Parking3/app/src/main/java/hr/ferit/belic/parking3/viewmodel/ParkingViewModel.kt:66-76 | finishing stops the timer (not running, 0 s left, h/m/s kept), and the spent countdown is no longer live |
| `ParkingTimer.ParkingViewModel.CancelTimer` | Parking3/app/src/main/java/hr/ferit/belic/parking3/viewmodel/ParkingViewModel.kt:80-86 | no countdown is live afterwards; the timer is stopped with h/m/s kept |
| `ParkingTimer.CancelTwice` | Parking3/app/src/main/java/hr/ferit/belic/parking3/viewmodel/ParkingViewModel.kt:81-85 | cancelling twice leaves the same state as cancelling once |
| `ParkingScreen.SpotOf` | Parking3/app/src/main/java/hr/ferit/belic/parking3/view/ParkingScreen.kt:160-172 | a prediction gives a marker iff its place fetch succeeds and the place has a position; the marker has that position and the place's name |
| `ParkingScreen.CollectSpots` | Parking3/app/src/main/java/hr/ferit/belic/parking3/view/ParkingScreen.kt:159-172 | no more markers than predictions, and each marker comes from some prediction's place |
| `ParkingScreen.CollectSpotsAppend` | Parking3/app/src/main/java/hr/ferit/belic/parking3/view/ParkingScreen.kt:159-172 | markers keep prediction order: the markers of a + b are those of a followed by those of b |
| `ParkingScreen.NearbyMarkers` | Parking3/app/src/main/java/hr/ferit/belic/parking3/view/ParkingScreen.kt:159-173 | at most 5 markers; they are a prefix of the collected ones, and all of them when fewer than 5 were collected |
| `ParkingScreen.LocatedPredictionsCollected` | Parking3/app/src/main/java/hr/ferit/belic/parking3/view/ParkingScreen.kt:159-172 | every prediction whose place fetch succeeds with a position gives a marker that is among the collected ones |
| `ParkingScreen.CollectSpotsEmptyIff` | Parking3/app/src/main/java/hr/ferit/belic/parking3/view/ParkingScreen.kt:159-172 | no marker is collected iff no prediction's place fetch succeeds with a position |
| `ParkingScreen.CollectSpotsOfLocatedPredictions` | Parking3/app/src/main/java/hr/ferit/belic/parking3/view/ParkingScreen.kt:159-172 | when every prediction's place has a position, there are as many markers as predictions and the i-th marker is the i-th prediction's |
| `ParkingScreen.NearbyMarkersEmptyIff` | Parking3/app/src/main/java/hr/ferit/belic/parking3/view/ParkingScreen.kt:173-176 | no marker is shown (and "No parking spots found nearby" is reported) iff no prediction's place has a position |
| `ParkingScreen.LaterPredictionsIgnored` | Parking3/app/src/main/java/hr/ferit/belic/parking3/view/ParkingScreen.kt:173 | once the first k predictions yield 5 markers, the later predictions do not change what is shown |
| `ParkingScreen.AddressFromLookup` | Parking3/app/src/main/java/hr/ferit/belic/parking3/view/ParkingScreen.kt:190-213 | the result is the first predicted place's address when the request, the first prediction, the fetch and the address all exist. Otherwise (either call throws, no prediction, no address) it is "Unknown address" |
| `ParkingScreen.SaveTarget` | Parking3/app/src/main/java/hr/ferit/belic/parking3/view/ParkingScreen.kt:512 | a target exists iff something is selected; the pinned car wins, then the spot's position |
| `ParkingScreen.SaveAddress` | Parking3/app/src/main/java/hr/ferit/belic/parking3/view/ParkingScreen.kt:513 | the selected spot's name when it has one, else the looked-up address |
| `ParkingScreen.HistoryFields` | Parking3/app/src/main/java/hr/ferit/belic/parking3/view/ParkingScreen.kt:221-225 | the saved document has exactly the fields "adress" (the address), "date" (a server timestamp) and "id" (the random id) |
| `ParkingScreen.FieldInput` | Parking3/app/src/main/java/hr/ferit/belic/parking3/view/ParkingScreen.kt:432 | text that is not a numeral, or whose value does not fit in `Int`, is stored as 0; any other text is stored as its value |
| `ParkingScreen.FieldInputOfShownValue` | Parking3/app/src/main/java/hr/ferit/belic/parking3/view/ParkingScreen.kt:431-432 | reading back the text a field shows for a value stores that same value |
| `ParkingScreen.OnHoursChanged` | Parking3/app/src/main/java/hr/ferit/belic/parking3/view/ParkingScreen.kt:432 | the Hours field stores `FieldInput(text)` as the hours and changes nothing else |
| `ParkingScreen.OnMinutesChanged` | Parking3/app/src/main/java/hr/ferit/belic/parking3/view/ParkingScreen.kt:443 | the Minutes field stores `FieldInput(text)` as the minutes and changes nothing else |
| `ParkingScreen.OnSecondsChanged` | Parking3/app/src/main/java/hr/ferit/belic/parking3/view/ParkingScreen.kt:454 | the Seconds field stores `FieldInput(text)` as the seconds and changes nothing else |
| `ParkingScreen.RemainingTime` | Parking3/app/src/main/java/hr/ferit/belic/parking3/view/ParkingScreen.kt:468-469 | h*3600 + m*60 + s equals the time left. For t >= 0, h >= 0 and 0 <= m, s < 60; for t < 0, all three are <= 0 and above -60 for m, s |
| `ParkingScreen.RemainingTimeAfterStart` | Parking3/app/src/main/java/hr/ferit/belic/parking3/view/ParkingScreen.kt:468-469 | right after a start whose entry has minutes and seconds below 60, the label shows exactly the entered h, m and s |
| `ParkingScreen.ParkingScreenState.constructor` | Parking3/app/src/main/java/hr/ferit/belic/parking3/view/ParkingScreen.kt:54-55 | nothing is pinned or selected, there are no markers and no error |
| `ParkingScreen.ParkingScreenState.OnMapLongClick` | Parking3/app/src/main/java/hr/ferit/belic/parking3/view/ParkingScreen.kt:357-359 | pins the car at the clicked point and clears the selected spot, so at most one of the two is set and Save is shown |
| `ParkingScreen.ParkingScreenState.OnMarkerClick` | Parking3/app/src/main/java/hr/ferit/belic/parking3/view/ParkingScreen.kt:382-384 | selects the clicked spot and clears the pinned car, so at most one of the two is set and Save is shown |
| `ParkingScreen.ParkingScreenState.OnNearbyPredictions` | Parking3/app/src/main/java/hr/ferit/belic/parking3/view/ParkingScreen.kt:157-183 | success replaces the markers with `NearbyMarkers`, and an empty result shows "No parking spots found nearby". Failure keeps the markers and shows the prefixed message, where a null message is written as "null". The selection is kept |
| `ParkingScreen.ParkingScreenState.SaveLocation` | Parking3/app/src/main/java/hr/ferit/belic/parking3/view/ParkingScreen.kt:507-515 | a document is written iff the Save button is shown. It holds the spot's name if there is one, else the looked-up address |
| `History.ToItem` | Parking3/app/src/main/java/hr/ferit/belic/parking3/viewmodel/HistoryViewModel.kt:32-34 | a document gives an item iff it has a string "adress" and a timestamp "date"; the item's id is the document id, its address the stored one and its date the stored timestamp in milliseconds |
| `Firestore.EpochMillis` | Parking3/app/src/main/java/hr/ferit/belic/parking3/viewmodel/HistoryViewModel.kt:34 | the milliseconds are the whole milliseconds of the instant: ms*10^6 <= seconds*10^9 + nanos < ms*10^6 + 10^6, and the `Long` truncating division gives the same value |
| `Firestore.EpochMillisMonotone` | Parking3/app/src/main/java/hr/ferit/belic/parking3/viewmodel/HistoryViewModel.kt:34 | an earlier timestamp never gives more milliseconds than a later one |
| `History.ToItems` | Parking3/app/src/main/java/hr/ferit/belic/parking3/viewmodel/HistoryViewModel.kt:31-35 | no more items than documents, and every item comes from a document of the snapshot |
| `History.ToItemsAppend` | Parking3/app/src/main/java/hr/ferit/belic/parking3/viewmodel/HistoryViewModel.kt:31-35 | items keep document order: the items of a + b are those of a followed by those of b |
| `History.ToItemsEmptyIff` | Parking3/app/src/main/java/hr/ferit/belic/parking3/viewmodel/HistoryViewModel.kt:31-36 | there are no items iff no document is complete |
| `History.ToItemsOfCompleteDocuments` | Parking3/app/src/main/java/hr/ferit/belic/parking3/viewmodel/HistoryViewModel.kt:31-35 | when all documents are complete, the i-th item is the i-th document's item |
| `History.Classify` | Parking3/app/src/main/java/hr/ferit/belic/parking3/viewmodel/HistoryViewModel.kt:36-40 | Empty iff no items; Success iff some items, and then carrying exactly them |
| `History.LoadResult` | Parking3/app/src/main/java/hr/ferit/belic/parking3/viewmodel/HistoryViewModel.kt:27-43 | never Loading, and Success never with an empty list. It is Error iff the request failed, with the message or else "Failed to load history". It is Empty iff no document is complete, else Success with the items |
| `History.DeleteFailure` | Parking3/app/src/main/java/hr/ferit/belic/parking3/viewmodel/HistoryViewModel.kt:55 | an Error whose message is "Failed to delete location: " followed by the exception's message, or by "null" |
| `History.HistoryViewModel.constructor` | Parking3/app/src/main/java/hr/ferit/belic/parking3/viewmodel/HistoryViewModel.kt:16-21 | starts in Loading with one fetch launched |
| `History.HistoryViewModel.FetchHistory` | Parking3/app/src/main/java/hr/ferit/belic/parking3/viewmodel/HistoryViewModel.kt:24-30 | Loading is published before the request is sent |
| `History.HistoryViewModel.CompleteFetch` | Parking3/app/src/main/java/hr/ferit/belic/parking3/viewmodel/HistoryViewModel.kt:27-43 | the completed request publishes `LoadResult` of its outcome, and the invariant (Success is non-empty) is kept |
| `History.HistoryViewModel.DeleteHistoryItem` | Parking3/app/src/main/java/hr/ferit/belic/parking3/viewmodel/HistoryViewModel.kt:47-50 | launching a delete leaves the published state as it was |
| `History.HistoryViewModel.CompleteDelete` | Parking3/app/src/main/java/hr/ferit/belic/parking3/viewmodel/HistoryViewModel.kt:50-56 | success launches a refetch, publishing Loading; failure publishes `DeleteFailure` of the message |
| `SaveLoad.SavedDocumentLoadsBack` | Parking3/app/src/main/java/hr/ferit/belic/parking3/view/ParkingScreen.kt:221-225 | save and load agree on "adress": a stored save reads back as an item with the saved address, the server's time and the document's id |
| `SaveLoad.UnresolvedSaveNotListed` | Parking3/app/src/main/java/hr/ferit/belic/parking3/view/ParkingScreen.kt:223 | before the server resolves the time, the saved "date" is not a timestamp and the document is not listed |
| `SaveLoad.StoredSaveListed` | Parking3/app/src/main/java/hr/ferit/belic/parking3/viewmodel/HistoryViewModel.kt:31-35 | every stored save in a loaded snapshot appears among the listed items |

## Left out

- Notifications (`sendNotification`), logging, snackbars, and navigation: platform I/O.
- Real time in the platform countdown: ticks and the finish arrive as events with the
  milliseconds they report. `OnTick` and `OnFinish` require a live countdown, because
  the platform calls back only a live countdown.
- Android's countdown calls `onFinish` at once from `start()` when the duration is not
  positive (for example a total of 0 after 1 h and -60 min). The model does not do this
  inside `StartTimer`. It is the `OnFinish` event, which may come next.
- `onCleared` cancels the countdown when the view model is discarded. Nothing can call
  a discarded view model, so it has no model.
- `logout`: a single pass-through call to the authentication SDK.
- Location permissions, the user's location, the city search and the camera: SDK
  calls and UI. The nearby-parking effect starts only once a user location is known. The
  model starts at the completed predictions request (`OnNearbyPredictions`).
- Coordinates are carried as `real` values and never computed with. The search boxes
  around a position (±0.05 and ±0.01 degrees) only shape the SDK requests. Their
  outcomes are inputs.
- `isActive` checks and coroutine cancellation: concurrency. Each awaited call is
  modelled as a launch event and a completion event. Completions of several launched
  calls may interleave in any order.
- `saveToHistory` does not await the write, so a failed write is lost silently.
  `SaveLocation` returns the fields it writes. The store itself is not modelled as
  state. A later snapshot is an input, so a delete's effect on the store is not
  modelled either.
- The store's order of documents in a snapshot is taken as given.
- `Firestore.GetString` and `Firestore.GetTimestamp`: the SDK throws when the field
  exists but holds another type, and that makes the whole load an Error. The model
  treats such a field as missing.
- `Kotlin.ToIntOrNull`: the JVM also accepts non-ASCII Unicode decimal digits; the
  model accepts ASCII digits only.
- The remaining-time label's text (`"Time Remaining: ${h}h ${m}m ${s}s"`): a string
  template over `RemainingTime`'s three parts. The model stops at the parts.
- The history screen's date formatting: locale-dependent library code.
- Sign-in and registration view models: a pass-through of two strings to the
  authentication SDK.
