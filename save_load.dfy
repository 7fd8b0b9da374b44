/** The history document the map screen writes and the history screen reads: both sides
    name the address field "adress", so a saved location is listed with the address it
    was saved under and the time the server recorded. */
module SaveLoad {
  import opened Kotlin
  import opened Firestore
  import ParkingScreen
  import opened History

  /** The document a save leaves in the store once the server has recorded its time. */
  function StoredSave(docId: string, address: string, uuid: string, now: Timestamp): (stored: Document) {
    Document(docId, ResolveServerTimestamps(ParkingScreen.HistoryFields(address, uuid), now))
  }

  /** A stored save reads back as an item with the saved address and the server time;
      its id is the document's id, not the random "id" field written with it. */
  lemma SavedDocumentLoadsBack(docId: string, address: string, uuid: string, now: Timestamp)
    ensures ToItem(StoredSave(docId, address, uuid, now)) == Some(ParkingHistoryItem(docId, address, EpochMillis(now)))
  {
  }

  /** A save whose time the server has not yet recorded still holds the placeholder under
      "date", which is not a timestamp, so it is not listed. */
  lemma UnresolvedSaveNotListed(docId: string, address: string, uuid: string)
    ensures ToItem(Document(docId, ParkingScreen.HistoryFields(address, uuid))).None?
  {
  }

  /** Every stored save in a loaded snapshot appears among the listed items. */
  lemma {:induction false} StoredSaveListed(docs: seq<Document>, i: nat, address: string, uuid: string, now: Timestamp)
    requires i < |docs| && docs[i] == StoredSave(docs[i].id, address, uuid, now)
    ensures ParkingHistoryItem(docs[i].id, address, EpochMillis(now)) in ToItems(docs)
  {
    var item := ParkingHistoryItem(docs[i].id, address, EpochMillis(now));
    SavedDocumentLoadsBack(docs[i].id, address, uuid, now);
    assert docs == docs[..i] + ([docs[i]] + docs[i + 1..]);
    ToItemsAppend(docs[..i], [docs[i]] + docs[i + 1..]);
    ToItemsAppend([docs[i]], docs[i + 1..]);
    assert ToItems([docs[i]]) == [item] by {
      assert [docs[i]][1..] == [];
    }
  }
}
