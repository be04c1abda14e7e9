/** The post-processing of fetchAllRooms and newRoom: what becomes of the texts found in
    one list item. Selecting the items and their texts in the HTML document is not part
    of this model; those texts are the input here. */
module Extractor {
  import opened Wrappers
  import opened Rooms
  import opened Text

  /** The characters trimmed from both ends of every extracted text: space, tab, newline. */
  const Cutset: set<char> := {' ', '\t', '\n'}

  /** The texts found in one list item: its data-id attribute if it has one, the text of
      each title span, and the texts taken for price, layout and size ("" when the item
      has none). */
  datatype Item = Item(dataId: Option<string>, titleTexts: seq<string>, priceText: string, layoutText: string, sizeText: string)

  /** The trimmed title spans, in order. */
  function TrimmedTitles(titleTexts: seq<string>): (titles: seq<string>)
    ensures |titles| == |titleTexts|
    ensures forall i :: 0 <= i < |titles| ==> titles[i] == Trim(titleTexts[i], Cutset)
  {
    seq(|titleTexts|, i requires 0 <= i < |titleTexts| => Trim(titleTexts[i], Cutset))
  }

  /** newRoom: an item without a data-id gives no room; otherwise the id is taken as is,
      the trimmed title spans are joined with single spaces, and the other texts trimmed. */
  function NewRoom(item: Item): (r: Option<Room>)
    ensures r.None? <==> item.dataId.None?
    ensures r.Some? ==> r.value.id == item.dataId.value
    ensures r.Some? ==> r.value.title == Join(TrimmedTitles(item.titleTexts), " ")
    ensures r.Some? ==> && r.value.price == Trim(item.priceText, Cutset)
                        && r.value.layout == Trim(item.layoutText, Cutset)
                        && r.value.size == Trim(item.sizeText, Cutset)
  {
    match item.dataId
    case None => None
    case Some(id) =>
      Some(Room(id, Join(TrimmedTitles(item.titleTexts), " "),
        Trim(item.priceText, Cutset), Trim(item.layoutText, Cutset), Trim(item.sizeText, Cutset)))
  }

  /** The rooms of a page, in document order: one per item that carries a data-id. */
  function RoomsOf(items: seq<Item>): (rooms: seq<Room>)
    ensures |rooms| <= |items|
    decreases |items|
  {
    if items == [] then []
    else
      var earlier, item := items[..|items| - 1], items[|items| - 1];
      RoomsOf(earlier) + (match NewRoom(item) case Some(r) => [r] case None => [])
  }

  /** The Each loop of fetchAllRooms. */
  method FetchAllRooms(items: seq<Item>) returns (rooms: seq<Room>)
    ensures rooms == RoomsOf(items)
  {
    rooms := [];
    for i := 0 to |items|
      invariant rooms == RoomsOf(items[..i])
    {
      assert items[..i + 1][..i] == items[..i];
      var room := NewRoom(items[i]);
      if room.Some? {
        rooms := rooms + [room.value];
      }
    }
    assert items[..|items|] == items;
  }

  /** Price, layout and size come out with no space, tab or newline at either end: a
      corollary of NewRoom's contract and Trim's. */
  lemma NewRoomTrimmed(item: Item)
    requires item.dataId.Some?
    ensures Trimmed(NewRoom(item).value.price, Cutset)
    ensures Trimmed(NewRoom(item).value.layout, Cutset)
    ensures Trimmed(NewRoom(item).value.size, Cutset)
  {
  }

  /** The ids of the extracted rooms and the data-ids present on the items contain each other. */
  lemma {:induction false} IdsFromDataIds(items: seq<Item>)
    ensures forall r :: r in RoomsOf(items) ==> exists item :: item in items && item.dataId == Some(r.id)
    ensures forall item :: item in items && item.dataId.Some? ==> item.dataId.value in Ids(RoomsOf(items))
    decreases |items|
  {
    if items != [] {
      var earlier := items[..|items| - 1];
      assert items == earlier + [items[|items| - 1]];
      IdsFromDataIds(earlier);
    }
  }

  /** The data-ids present on the items, in document order. */
  function DataIds(items: seq<Item>): seq<string>
    decreases |items|
  {
    if items == [] then []
    else
      var earlier, item := items[..|items| - 1], items[|items| - 1];
      DataIds(earlier) + (match item.dataId case Some(id) => [id] case None => [])
  }

  /** The ids of a list of rooms, in list order. */
  function RoomIds(rooms: seq<Room>): (ids: seq<string>)
    ensures |ids| == |rooms| && forall i :: 0 <= i < |rooms| ==> ids[i] == rooms[i].id
  {
    seq(|rooms|, i requires 0 <= i < |rooms| => rooms[i].id)
  }

  /** The ids of two lists of rooms put together are the ids of each, in turn. */
  lemma RoomIdsAppend(a: seq<Room>, b: seq<Room>)
    ensures RoomIds(a + b) == RoomIds(a) + RoomIds(b)
  {
  }

  /** The extracted rooms carry, one for one and in document order, the data-ids present
      on the items. */
  lemma {:induction false} IdsInDocumentOrder(items: seq<Item>)
    ensures RoomIds(RoomsOf(items)) == DataIds(items)
    decreases |items|
  {
    if items != [] {
      var earlier, item := items[..|items| - 1], items[|items| - 1];
      IdsInDocumentOrder(earlier);
      var tail := match NewRoom(item) case Some(r) => [r] case None => [];
      assert RoomsOf(items) == RoomsOf(earlier) + tail;
      assert DataIds(items) == DataIds(earlier) + (match item.dataId case Some(id) => [id] case None => []);
      assert RoomIds(tail) == (match item.dataId case Some(id) => [id] case None => []);
      RoomIdsAppend(RoomsOf(earlier), tail);
    }
  }
}
