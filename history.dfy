/** The parking history screen's view model: it loads the "parkingHistory" documents,
    turns the complete ones into items, publishes Loading, Empty, Success or Error, and
    deletes an item on request.

    Each store call is awaited in a coroutine, so it is modelled as two events: the call
    is launched (`FetchHistory`, `DeleteHistoryItem`), and later it completes with an
    outcome (`CompleteFetch`, `CompleteDelete`). */
module History {
  import opened Kotlin
  import opened Firestore

  /** One saved location as the history screen lists it. */
  datatype ParkingHistoryItem = ParkingHistoryItem(id: string, address: string, date: int)

  datatype HistoryState =
    | Loading
    | Empty
    | Success(items: seq<ParkingHistoryItem>)
    | Error(message: string)

  const LOAD_FAILED := "Failed to load history"
  const DELETE_FAILED_PREFIX := "Failed to delete location: "

  /** A document becomes an item when it has a string "adress" and a timestamp "date";
      the item's id is the document's id and its date the timestamp in milliseconds. */
  function ToItem(doc: Document): (r: Option<ParkingHistoryItem>)
    ensures r.Some? <==> GetString(doc, "adress").Some? && GetTimestamp(doc, "date").Some?
    ensures r.Some? ==> r.value.id == doc.id && Some(r.value.address) == GetString(doc, "adress")
    ensures r.Some? ==> r.value.date == EpochMillis(GetTimestamp(doc, "date").value)
  {
    match GetString(doc, "adress")
    case None => None
    case Some(address) =>
      match GetTimestamp(doc, "date")
      case None => None
      case Some(date) => Some(ParkingHistoryItem(doc.id, address, EpochMillis(date)))
  }

  /** The items of a snapshot's documents, in document order, skipping incomplete ones
      (`mapNotNull`). */
  function ToItems(docs: seq<Document>): (items: seq<ParkingHistoryItem>)
    ensures |items| <= |docs|
    ensures forall it :: it in items ==> exists d :: d in docs && ToItem(d) == Some(it)
  {
    if docs == [] then []
    else
      var rest := ToItems(docs[1..]);
      match ToItem(docs[0])
      case None => rest
      case Some(it) => [it] + rest
  }

  /** Skipping incomplete documents keeps their order: the items of two runs of
      documents are the items of the first followed by those of the second. */
  lemma {:induction false} ToItemsAppend(a: seq<Document>, b: seq<Document>)
    ensures ToItems(a + b) == ToItems(a) + ToItems(b)
  {
    if a != [] {
      assert (a + b)[0] == a[0] && (a + b)[1..] == a[1..] + b;
      ToItemsAppend(a[1..], b);
      match ToItem(a[0]) {
        case None =>
        case Some(it) =>
          assert ToItems(a + b) == [it] + (ToItems(a[1..]) + ToItems(b));
      }
    } else {
      assert a + b == b;
    }
  }

  /** No item survives exactly when no document is complete. */
  lemma {:induction false} ToItemsEmptyIff(docs: seq<Document>)
    ensures ToItems(docs) == [] <==> forall d :: d in docs ==> ToItem(d).None?
  {
    if docs != [] {
      ToItemsEmptyIff(docs[1..]);
      forall d | d in docs[1..] ensures d in docs { }
      if ToItem(docs[0]).None? {
        forall d | d in docs ensures ToItem(d).None? <==> d == docs[0] || ToItem(d).None? { }
        assert forall d :: d in docs ==> d == docs[0] || d in docs[1..];
      }
    }
  }

  /** When every document is complete, each one gives the item at its own position. */
  lemma {:induction false} ToItemsOfCompleteDocuments(docs: seq<Document>)
    requires forall i :: 0 <= i < |docs| ==> ToItem(docs[i]).Some?
    ensures |ToItems(docs)| == |docs|
    ensures forall i :: 0 <= i < |docs| ==> Some(ToItems(docs)[i]) == ToItem(docs[i])
  {
    if docs != [] {
      ToItemsOfCompleteDocuments(docs[1..]);
      assert forall i :: 1 <= i < |docs| ==> docs[1..][i - 1] == docs[i];
    }
  }

  /** The state a finished load publishes for the items it found. */
  function Classify(items: seq<ParkingHistoryItem>): (s: HistoryState)
    ensures s.Empty? <==> items == []
    ensures s.Success? <==> items != []
    ensures s.Success? ==> s.items == items
  {
    if items == [] then Empty else Success(items)
  }

  /** The state a load publishes once the snapshot request completes: the classified
      items, or an error carrying the exception's message (or a fixed text when the
      message is null). */
  function LoadResult(snapshot: Outcome<seq<Document>>): (s: HistoryState)
    ensures !s.Loading?
    ensures s.Success? ==> s.items != []
    ensures s.Error? <==> snapshot.Err?
    ensures snapshot.Err? ==> s.message == if snapshot.message.Some? then snapshot.message.value else LOAD_FAILED
    ensures snapshot.Ok? ==> (s.Empty? <==> forall d :: d in snapshot.value ==> ToItem(d).None?)
    ensures snapshot.Ok? && s.Success? ==> s.items == ToItems(snapshot.value)
  {
    match snapshot
    case Ok(docs) =>
      ToItemsEmptyIff(docs);
      Classify(ToItems(docs))
    case Err(message) =>
      Error(match message case Some(m) => m case None => LOAD_FAILED)
  }

  /** The error a failed delete publishes; a null message is written as "null". */
  function DeleteFailure(message: Option<string>): (s: HistoryState)
    ensures s.Error? && DELETE_FAILED_PREFIX <= s.message
    ensures message.Some? ==> s.message[|DELETE_FAILED_PREFIX|..] == message.value
    ensures message.None? ==> s.message[|DELETE_FAILED_PREFIX|..] == "null"
  {
    Error(DELETE_FAILED_PREFIX + Render(message))
  }

  class HistoryViewModel {
    /** The value of the published state flow. */
    var historyState: HistoryState
    /** Fetches launched whose snapshot request has not completed. */
    var pendingFetches: nat
    /** Deletes launched whose delete request has not completed. */
    var pendingDeletes: nat

    /** A published success always carries items. */
    ghost predicate Valid()
      reads this
    {
      historyState.Success? ==> historyState.items != []
    }

    /** The state starts as Loading and a fetch is launched at once. */
    constructor ()
      ensures Valid()
      ensures historyState == Loading && pendingFetches == 1 && pendingDeletes == 0
    {
      historyState := Loading;
      pendingFetches := 0;
      pendingDeletes := 0;
      new;
      FetchHistory();
    }

    /** Launches a load: the state becomes Loading before the request is sent. */
    method FetchHistory()
      requires Valid()
      modifies this
      ensures Valid()
      ensures historyState == Loading
      ensures pendingFetches == old(pendingFetches) + 1 && pendingDeletes == old(pendingDeletes)
    {
      historyState := Loading;
      pendingFetches := pendingFetches + 1;
    }

    /** A launched load's snapshot request completes. */
    method CompleteFetch(snapshot: Outcome<seq<Document>>)
      requires Valid() && pendingFetches > 0
      modifies this
      ensures Valid()
      ensures historyState == LoadResult(snapshot)
      ensures pendingFetches == old(pendingFetches) - 1 && pendingDeletes == old(pendingDeletes)
    {
      match snapshot {
        case Ok(docs) =>
          var items := ToItems(docs);
          historyState := if items == [] then Empty else Success(items);
        case Err(message) =>
          historyState := Error(if message.Some? then message.value else LOAD_FAILED);
      }
      pendingFetches := pendingFetches - 1;
    }

    /** Launches the delete of `item`'s document (by its id). */
    method DeleteHistoryItem(item: ParkingHistoryItem)
      requires Valid()
      modifies this
      ensures Valid()
      ensures historyState == old(historyState)
      ensures pendingDeletes == old(pendingDeletes) + 1 && pendingFetches == old(pendingFetches)
    {
      pendingDeletes := pendingDeletes + 1;
    }

    /** A launched delete completes: on success the history is fetched again, on
        failure the error is published. */
    method CompleteDelete(outcome: Outcome<()>)
      requires Valid() && pendingDeletes > 0
      modifies this
      ensures Valid()
      ensures pendingDeletes == old(pendingDeletes) - 1
      ensures outcome.Ok? ==> historyState == Loading && pendingFetches == old(pendingFetches) + 1
      ensures outcome.Err? ==> historyState == DeleteFailure(outcome.message) && pendingFetches == old(pendingFetches)
    {
      pendingDeletes := pendingDeletes - 1;
      match outcome {
        case Ok(_) =>
          FetchHistory();
        case Err(message) =>
          historyState := Error(DELETE_FAILED_PREFIX + Render(message));
      }
    }
  }
}
