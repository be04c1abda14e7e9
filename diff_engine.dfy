/** detectDiff: splits the freshly scraped rooms against the previous snapshot into
    new rooms, updated pairs and removed rooms. */
module DiffEngine {
  import opened Wrappers
  import opened Rooms

  /** previousRoomsMap: every previous id mapped to the LAST previous room carrying it. */
  function Lookup(previousRooms: seq<Room>): (m: map<string, Room>)
    ensures m.Keys == Ids(previousRooms)
    ensures forall id :: id in m ==> m[id].id == id && m[id] in previousRooms
    decreases |previousRooms|
  {
    if previousRooms == [] then map[]
    else
      var earlier, last := previousRooms[..|previousRooms| - 1], previousRooms[|previousRooms| - 1];
      assert previousRooms == earlier + [last];
      Lookup(earlier)[last.id := last]
  }

  /** A current room is matched when its id is a previous id that no earlier current
      room has already consumed from the lookup. */
  predicate Matched(earlier: seq<Room>, room: Room, previousIds: set<string>)
  {
    room.id in previousIds && room.id !in Ids(earlier)
  }

  /** newRooms: the current rooms, in input order, that are not matched when reached. */
  function NewRoomsOf(rooms: seq<Room>, previousIds: set<string>): (rs: seq<Room>)
    ensures forall r :: r in rs ==> r in rooms
    decreases |rooms|
  {
    if rooms == [] then []
    else
      var earlier, room := rooms[..|rooms| - 1], rooms[|rooms| - 1];
      assert rooms == earlier + [room];
      NewRoomsOf(earlier, previousIds) + (if Matched(earlier, room, previousIds) then [] else [room])
  }

  /** updatedRoomPairs: in input order, each matched current room paired with its
      lookup entry, kept only when the two differ. */
  function UpdatedPairsOf(rooms: seq<Room>, lookup: map<string, Room>): (ps: seq<RoomPair>)
    ensures forall p :: p in ps ==>
      p.newRoom in rooms && p.newRoom.id in lookup && p.oldRoom == lookup[p.newRoom.id] && HasDiff(p)
    decreases |rooms|
  {
    if rooms == [] then []
    else
      var earlier, room := rooms[..|rooms| - 1], rooms[|rooms| - 1];
      assert rooms == earlier + [room];
      UpdatedPairsOf(earlier, lookup) +
        (if Matched(earlier, room, lookup.Keys) && HasDiff(RoomPair(room, lookup[room.id]))
         then [RoomPair(room, lookup[room.id])] else [])
  }

  /** What is left of the lookup after every current room has consumed its id. */
  function Unmatched(rooms: seq<Room>, previousRooms: seq<Room>): map<string, Room>
  {
    Lookup(previousRooms) - Ids(rooms)
  }

  /** removed lists every entry of m exactly once, in some order (Go's map iteration
      order is unspecified). */
  ghost predicate Enumerates(removed: seq<Room>, m: map<string, Room>)
  {
    && |removed| == |m|
    && (forall i :: 0 <= i < |removed| ==> removed[i].id in m && m[removed[i].id] == removed[i])
    && (forall i, j :: 0 <= i < j < |removed| ==> removed[i].id != removed[j].id)
    && (forall id :: id in m ==> m[id] in removed)
  }

  /** The diff of rooms against previousRooms has nothing in any of its three lists. */
  ghost predicate NoDiff(rooms: seq<Room>, previousRooms: seq<Room>)
  {
    && NewRoomsOf(rooms, Ids(previousRooms)) == []
    && UpdatedPairsOf(rooms, Lookup(previousRooms)) == []
    && Unmatched(rooms, previousRooms) == map[]
  }

  /** d is a diff that detectDiff may return for rooms against previousRooms. */
  ghost predicate IsDiffOf(d: Diff, rooms: seq<Room>, previousRooms: seq<Room>)
  {
    && d.newRooms == NewRoomsOf(rooms, Ids(previousRooms))
    && d.updatedRoomPairs == UpdatedPairsOf(rooms, Lookup(previousRooms))
    && Enumerates(d.removedRooms, Unmatched(rooms, previousRooms))
  }

  /** The map-building loop of detectDiff: later previous rooms overwrite earlier ones. */
  method BuildLookup(previousRooms: seq<Room>) returns (previousRoomsMap: map<string, Room>)
    ensures previousRoomsMap == Lookup(previousRooms)
  {
    previousRoomsMap := map[];
    for i := 0 to |previousRooms|
      invariant previousRoomsMap == Lookup(previousRooms[..i])
    {
      assert previousRooms[..i + 1][..i] == previousRooms[..i];
      previousRoomsMap := previousRoomsMap[previousRooms[i].id := previousRooms[i]];
    }
    assert previousRooms[..|previousRooms|] == previousRooms;
  }

  /** One more current room extends the new rooms, the updated pairs and the consumed
      ids by what that room alone contributes. */
  lemma MatchStep(rooms: seq<Room>, lookup: map<string, Room>, i: nat)
    requires i < |rooms|
    ensures var earlier, room := rooms[..i], rooms[i];
      && Ids(rooms[..i + 1]) == Ids(earlier) + {room.id}
      && NewRoomsOf(rooms[..i + 1], lookup.Keys) ==
           NewRoomsOf(earlier, lookup.Keys) + (if Matched(earlier, room, lookup.Keys) then [] else [room])
      && UpdatedPairsOf(rooms[..i + 1], lookup) ==
           UpdatedPairsOf(earlier, lookup) +
             (if Matched(earlier, room, lookup.Keys) && HasDiff(RoomPair(room, lookup[room.id]))
              then [RoomPair(room, lookup[room.id])] else [])
  {
    assert rooms[..i + 1][..i] == rooms[..i];
    assert rooms[..i + 1] == rooms[..i] + [rooms[i]];
  }

  /** The loop of detectDiff over the current rooms: each matched id is deleted from
      the map, unmatched rooms become new, differing matches become updated pairs. */
  method MatchRooms(rooms: seq<Room>, lookup: map<string, Room>)
    returns (newRooms: seq<Room>, updatedRoomPairs: seq<RoomPair>, remaining: map<string, Room>)
    ensures newRooms == NewRoomsOf(rooms, lookup.Keys)
    ensures updatedRoomPairs == UpdatedPairsOf(rooms, lookup)
    ensures remaining == lookup - Ids(rooms)
  {
    newRooms, updatedRoomPairs, remaining := [], [], lookup;
    for i := 0 to |rooms|
      invariant remaining == lookup - Ids(rooms[..i])
      invariant newRooms == NewRoomsOf(rooms[..i], lookup.Keys)
      invariant updatedRoomPairs == UpdatedPairsOf(rooms[..i], lookup)
    {
      var room := rooms[i];
      MatchStep(rooms, lookup, i);
      assert room.id in remaining <==> Matched(rooms[..i], room, lookup.Keys);
      if room.id in remaining {
        var p := RoomPair(room, remaining[room.id]);
        if HasDiff(p) {
          updatedRoomPairs := updatedRoomPairs + [p];
        }
        remaining := remaining - {room.id};
      } else {
        newRooms := newRooms + [room];
      }
    }
    assert rooms[..|rooms|] == rooms;
  }

  /** Every entry of m is the room whose id is its key. */
  ghost predicate KeyedById(m: map<string, Room>)
  {
    forall id :: id in m ==> m[id].id == id
  }

  /** Listing the entry of one more key keeps the enumeration exact. */
  lemma EnumeratesStep(removed: seq<Room>, remaining: map<string, Room>, todo: set<string>, id: string)
    requires KeyedById(remaining)
    requires todo <= remaining.Keys && id in todo
    requires Enumerates(removed, remaining - todo)
    ensures Enumerates(removed + [remaining[id]], remaining - (todo - {id}))
  {
    var drained, drained' := remaining - todo, remaining - (todo - {id});
    var room := remaining[id];
    var removed' := removed + [room];
    assert id !in drained;
    assert drained' == drained[id := room];
    assert |removed'| == |drained'|;
    forall i | 0 <= i < |removed'|
      ensures removed'[i].id in drained' && drained'[removed'[i].id] == removed'[i]
    {
      if i < |removed| {
        assert removed'[i] == removed[i];
      }
    }
    forall i, j | 0 <= i < j < |removed'|
      ensures removed'[i].id != removed'[j].id
    {
      if j == |removed| {
        assert removed[i].id in drained;
      }
    }
    forall k | k in drained' ensures drained'[k] in removed' {
      if k != id {
        assert drained[k] in removed;
      }
    }
  }

  /** The loop of detectDiff over what is left of the map: one removed room per entry. */
  method ListRemaining(remaining: map<string, Room>) returns (removedRooms: seq<Room>)
    requires KeyedById(remaining)
    ensures Enumerates(removedRooms, remaining)
  {
    removedRooms := [];
    var todo := remaining.Keys;
    while todo != {}
      invariant todo <= remaining.Keys
      invariant Enumerates(removedRooms, remaining - todo)
      decreases todo
    {
      var id :| id in todo;
      EnumeratesStep(removedRooms, remaining, todo, id);
      removedRooms := removedRooms + [remaining[id]];
      todo := todo - {id};
    }
    assert remaining - todo == remaining;
  }

  /** detectDiff: None exactly when the three lists are all empty. */
  method DetectDiff(rooms: seq<Room>, previousRooms: seq<Room>) returns (d: Option<Diff>)
    ensures d.None? <==> NoDiff(rooms, previousRooms)
    ensures d.Some? ==> IsDiffOf(d.value, rooms, previousRooms)
  {
    var previousRoomsMap := BuildLookup(previousRooms);
    var newRooms, updatedRoomPairs, remaining := MatchRooms(rooms, previousRoomsMap);
    assert remaining == Unmatched(rooms, previousRooms);
    var removedRooms := ListRemaining(remaining);
    if newRooms == [] && updatedRoomPairs == [] && removedRooms == [] {
      d := None;
    } else {
      d := Some(Diff(newRooms, updatedRoomPairs, removedRooms));
    }
  }

  // ---------------------------------------------------------------------------
  // Properties of the diff

  /** With duplicate previous ids, the lookup keeps the last previous room carrying the id. */
  lemma {:induction false} LookupLastWins(previousRooms: seq<Room>, j: nat)
    requires j < |previousRooms|
    requires forall k :: j < k < |previousRooms| ==> previousRooms[k].id != previousRooms[j].id
    ensures Lookup(previousRooms)[previousRooms[j].id] == previousRooms[j]
  {
    var n := |previousRooms|;
    var earlier, last := previousRooms[..n - 1], previousRooms[n - 1];
    assert Lookup(previousRooms) == Lookup(earlier)[last.id := last];
    if j < n - 1 {
      assert earlier[j] == previousRooms[j];
      LookupLastWins(earlier, j);
    }
  }

  /** A room that the loop reaches after an earlier room with the same id is always new,
      and it adds no updated pair. */
  lemma DuplicateIsNew(rooms: seq<Room>, lookup: map<string, Room>, j: nat, i: nat)
    requires j < i < |rooms| && rooms[j].id == rooms[i].id
    ensures NewRoomsOf(rooms[..i + 1], lookup.Keys) == NewRoomsOf(rooms[..i], lookup.Keys) + [rooms[i]]
    ensures UpdatedPairsOf(rooms[..i + 1], lookup) == UpdatedPairsOf(rooms[..i], lookup)
  {
    assert rooms[..i + 1][..i] == rooms[..i];
    assert rooms[..i][j] in rooms[..i];
  }

  /** The new rooms found among a prefix of the current rooms stay, in the same order,
      at the front of the final list. */
  lemma {:induction false} NewRoomsInInputOrder(rooms: seq<Room>, previousIds: set<string>, i: nat)
    requires i <= |rooms|
    ensures NewRoomsOf(rooms[..i], previousIds) <= NewRoomsOf(rooms, previousIds)
    decreases |rooms|
  {
    if i < |rooms| {
      var earlier := rooms[..|rooms| - 1];
      assert earlier[..i] == rooms[..i];
      NewRoomsInInputOrder(earlier, previousIds, i);
    } else {
      assert rooms[..i] == rooms;
    }
  }

  /** Each current room adds at most one entry to new rooms or updated pairs. */
  lemma {:induction false} MatchedCountBound(rooms: seq<Room>, lookup: map<string, Room>)
    ensures |NewRoomsOf(rooms, lookup.Keys)| + |UpdatedPairsOf(rooms, lookup)| <= |rooms|
    decreases |rooms|
  {
    if rooms != [] {
      MatchedCountBound(rooms[..|rooms| - 1], lookup);
    }
  }

  /** Removed rooms: one per unmatched previous id, taken from the lookup (so the last
      previous room with that id), never an id that some current room carries. */
  lemma RemovedBounds(rooms: seq<Room>, previousRooms: seq<Room>)
    ensures |Unmatched(rooms, previousRooms)| <= |Ids(previousRooms)|
    ensures Unmatched(rooms, previousRooms).Keys !! Ids(rooms)
    ensures forall id :: id in Unmatched(rooms, previousRooms) ==>
      id in Ids(previousRooms) && Unmatched(rooms, previousRooms)[id] == Lookup(previousRooms)[id]
  {
  }

  /** A room of a list with unique ids is the only room carrying its id there. */
  lemma IdsOfUnique(rooms: seq<Room>, i: nat)
    requires UniqueIds(rooms) && i < |rooms|
    ensures rooms[i].id !in Ids(rooms[..i])
    ensures forall r :: r in rooms && r.id == rooms[i].id ==> r == rooms[i]
  {
  }

  /** When no current id repeats, a current room is new exactly when its id is not a
      previous id, and it forms an updated pair exactly when its lookup entry differs. */
  lemma {:induction false} UniqueMembership(rooms: seq<Room>, lookup: map<string, Room>)
    requires UniqueIds(rooms)
    ensures forall r :: r in NewRoomsOf(rooms, lookup.Keys) <==> r in rooms && r.id !in lookup
    ensures forall p :: p in UpdatedPairsOf(rooms, lookup) <==>
      p.newRoom in rooms && p.newRoom.id in lookup && p.oldRoom == lookup[p.newRoom.id] && HasDiff(p)
    decreases |rooms|
  {
    if rooms != [] {
      var n := |rooms|;
      var earlier, room := rooms[..n - 1], rooms[n - 1];
      assert rooms == earlier + [room];
      assert UniqueIds(earlier);
      UniqueMembership(earlier, lookup);
      IdsOfUnique(rooms, n - 1);
    }
  }

  /** For current ids without repeats: a current room whose id is a previous id is never
      new, its id is never removed, and it is recorded as updated (paired with the last
      previous room of that id) exactly when some field differs. */
  lemma MatchedRoom(rooms: seq<Room>, previousRooms: seq<Room>, r: Room)
    requires UniqueIds(rooms) && r in rooms && r.id in Ids(previousRooms)
    ensures r !in NewRoomsOf(rooms, Ids(previousRooms))
    ensures r.id !in Unmatched(rooms, previousRooms)
    ensures RoomPair(r, Lookup(previousRooms)[r.id]) in UpdatedPairsOf(rooms, Lookup(previousRooms))
      <==> HasDiff(RoomPair(r, Lookup(previousRooms)[r.id]))
    ensures forall p :: p in UpdatedPairsOf(rooms, Lookup(previousRooms)) && p.newRoom.id == r.id ==>
      p == RoomPair(r, Lookup(previousRooms)[r.id])
  {
    var lookup := Lookup(previousRooms);
    UniqueMembership(rooms, lookup);
    var i :| 0 <= i < |rooms| && rooms[i] == r;
    IdsOfUnique(rooms, i);
  }

  /** When the previous list holds the same rooms as a current list with unique ids,
      every current room finds itself in the lookup and every previous id is current. */
  lemma PermutationLookup(rooms: seq<Room>, previousRooms: seq<Room>)
    requires UniqueIds(rooms) && multiset(rooms) == multiset(previousRooms)
    ensures forall r :: r in rooms ==> r.id in Lookup(previousRooms) && Lookup(previousRooms)[r.id] == r
    ensures Lookup(previousRooms).Keys == Ids(rooms)
  {
    var lookup := Lookup(previousRooms);
    forall i | 0 <= i < |rooms| ensures rooms[i].id in lookup && lookup[rooms[i].id] == rooms[i] {
      assert rooms[i] in multiset(previousRooms);
      assert lookup[rooms[i].id] in multiset(rooms);
      IdsOfUnique(rooms, i);
    }
    forall id | id in lookup ensures id in Ids(rooms) {
      assert lookup[id] in multiset(rooms);
    }
  }

  /** Current rooms with unique ids that each find themselves in the lookup add nothing
      to new rooms or updated pairs. */
  lemma {:induction false} AllFoundUnchanged(rooms: seq<Room>, lookup: map<string, Room>)
    requires UniqueIds(rooms)
    requires forall r :: r in rooms ==> r.id in lookup && lookup[r.id] == r
    ensures NewRoomsOf(rooms, lookup.Keys) == []
    ensures UpdatedPairsOf(rooms, lookup) == []
    decreases |rooms|
  {
    if rooms != [] {
      var n := |rooms|;
      var earlier := rooms[..n - 1];
      assert rooms == earlier + [rooms[n - 1]];
      assert UniqueIds(earlier);
      IdsOfUnique(rooms, n - 1);
      AllFoundUnchanged(earlier, lookup);
    }
  }

  /** Two lists with unique ids holding the same rooms in any order give no diff; in
      particular a list compared with itself. */
  lemma PermutationNoDiff(rooms: seq<Room>, previousRooms: seq<Room>)
    requires UniqueIds(rooms) && multiset(rooms) == multiset(previousRooms)
    ensures NoDiff(rooms, previousRooms)
  {
    var lookup := Lookup(previousRooms);
    PermutationLookup(rooms, previousRooms);
    AllFoundUnchanged(rooms, lookup);
    assert Unmatched(rooms, previousRooms).Keys == {};
  }

  /** When no current id is in the lookup, every current room is new and nothing is updated. */
  lemma {:induction false} DisjointIds(rooms: seq<Room>, lookup: map<string, Room>)
    requires Ids(rooms) !! lookup.Keys
    ensures NewRoomsOf(rooms, lookup.Keys) == rooms
    ensures UpdatedPairsOf(rooms, lookup) == []
    decreases |rooms|
  {
    if rooms != [] {
      var earlier := rooms[..|rooms| - 1];
      assert rooms == earlier + [rooms[|rooms| - 1]];
      assert Ids(earlier) <= Ids(rooms);
      DisjointIds(earlier, lookup);
    }
  }

  /** When no current id is a previous id, every current room is new, in order, nothing
      is updated, and every previous id is removed (with its last previous room). */
  lemma DisjointLists(rooms: seq<Room>, previousRooms: seq<Room>)
    requires Ids(rooms) !! Ids(previousRooms)
    ensures NewRoomsOf(rooms, Ids(previousRooms)) == rooms
    ensures UpdatedPairsOf(rooms, Lookup(previousRooms)) == []
    ensures Unmatched(rooms, previousRooms) == Lookup(previousRooms)
  {
    DisjointIds(rooms, Lookup(previousRooms));
  }

  /** Permuting a previous list with unique ids leaves the lookup, and so every part of
      the diff, unchanged. */
  lemma PreviousOrderIrrelevant(rooms: seq<Room>, a: seq<Room>, b: seq<Room>)
    requires UniqueIds(a) && multiset(a) == multiset(b)
    ensures Lookup(a) == Lookup(b)
    ensures NewRoomsOf(rooms, Ids(a)) == NewRoomsOf(rooms, Ids(b))
    ensures UpdatedPairsOf(rooms, Lookup(a)) == UpdatedPairsOf(rooms, Lookup(b))
    ensures Unmatched(rooms, a) == Unmatched(rooms, b)
  {
    var la, lb := Lookup(a), Lookup(b);
    assert forall r :: r in a <==> r in b by {
      forall r ensures r in a <==> r in b {
        assert r in a <==> r in multiset(a);
      }
    }
    assert la.Keys == lb.Keys;
    forall id | id in la ensures la[id] == lb[id] {
      assert lb[id] in a;
      var i :| 0 <= i < |a| && a[i] == lb[id];
      IdsOfUnique(a, i);
    }
    assert la == lb;
  }
}
