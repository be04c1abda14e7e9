/** The records the crawler compares: a room listing, a matched pair, and a diff. */
module Rooms {

  /** One listing scraped from the site. Every field is an opaque display string. */
  datatype Room = Room(id: string, title: string, price: string, layout: string, size: string)

  /** A current room and the previous room that carries the same id. */
  datatype RoomPair = RoomPair(newRoom: Room, oldRoom: Room)

  /** The three lists computed by the diff engine. */
  datatype Diff = Diff(newRooms: seq<Room>, updatedRoomPairs: seq<RoomPair>, removedRooms: seq<Room>)

  /** roomPair.hasDiff: the two rooms are not deeply equal. For a pair matched by id,
      this is exactly "title, price, layout or size differ" under string comparison. */
  function HasDiff(p: RoomPair): (b: bool)
    ensures p.newRoom.id == p.oldRoom.id ==>
      (b <==> p.newRoom.title != p.oldRoom.title || p.newRoom.price != p.oldRoom.price ||
              p.newRoom.layout != p.oldRoom.layout || p.newRoom.size != p.oldRoom.size)
  {
    p.newRoom != p.oldRoom
  }

  /** The ids carried by a list of rooms. */
  function Ids(rooms: seq<Room>): set<string>
  {
    set r | r in rooms :: r.id
  }

  /** No two rooms of the list share an id. */
  predicate UniqueIds(rooms: seq<Room>)
  {
    forall i, j :: 0 <= i < j < |rooms| ==> rooms[i].id != rooms[j].id
  }
}
