/** The texts of the message blocks sent for a diff. Serialising them as JSON and posting
    them to the webhook are not part of this model. */
module Notifier {
  import opened Wrappers
  import opened Rooms

  /** The detail page of a listing is this prefix followed by its id. */
  const UrlPrefix := "https://www.fudousan.or.jp/property/detail?p_no="

  const NewLabel := "New: "
  const UpdatedLabel := "Updated: "
  const RemovedLabel := "Removed: "

  /** room.url: the listing's detail page; the id is everything after the fixed prefix. */
  function Url(room: Room): (u: string)
    ensures |u| == |UrlPrefix| + |room.id|
    ensures u[..|UrlPrefix|] == UrlPrefix && u[|UrlPrefix|..] == room.id
  {
    UrlPrefix + room.id
  }

  /** The block for a new room: title, then price, layout and size, then the link. */
  function NewRoomText(room: Room): string
  {
    NewLabel + room.title + "\n" + room.price + " " + room.layout + " " + room.size + "\n" + Url(room)
  }

  /** The block for an updated pair, built from the new side: title, price, link. */
  function UpdatedRoomText(p: RoomPair): string
  {
    UpdatedLabel + p.newRoom.title + "\n" + p.newRoom.price + "\n" + Url(p.newRoom)
  }

  /** The block for a removed room: its title only. */
  function RemovedRoomText(room: Room): string
  {
    RemovedLabel + room.title
  }

  /** blocks holds one text per new room, then one per updated pair, then one per
      removed room, each group in the diff's own order. */
  ghost predicate RendersDiff(blocks: seq<string>, d: Diff)
  {
    var n, u := |d.newRooms|, |d.updatedRoomPairs|;
    && |blocks| == n + u + |d.removedRooms|
    && (forall i :: 0 <= i < n ==> blocks[i] == NewRoomText(d.newRooms[i]))
    && (forall i :: 0 <= i < u ==> blocks[n + i] == UpdatedRoomText(d.updatedRoomPairs[i]))
    && (forall i :: 0 <= i < |d.removedRooms| ==> blocks[n + u + i] == RemovedRoomText(d.removedRooms[i]))
  }

  /** The block-building loops of newDiffSlackLayoutBlocks. */
  method DiffBlocks(d: Diff) returns (blocks: seq<string>)
    ensures RendersDiff(blocks, d)
  {
    blocks := [];
    for i := 0 to |d.newRooms|
      invariant |blocks| == i
      invariant forall k :: 0 <= k < i ==> blocks[k] == NewRoomText(d.newRooms[k])
    {
      blocks := blocks + [NewRoomText(d.newRooms[i])];
    }
    var n := |blocks|;
    for i := 0 to |d.updatedRoomPairs|
      invariant |blocks| == n + i
      invariant forall k :: 0 <= k < n ==> blocks[k] == NewRoomText(d.newRooms[k])
      invariant forall k :: 0 <= k < i ==> blocks[n + k] == UpdatedRoomText(d.updatedRoomPairs[k])
    {
      blocks := blocks + [UpdatedRoomText(d.updatedRoomPairs[i])];
    }
    var nu := |blocks|;
    for i := 0 to |d.removedRooms|
      invariant |blocks| == nu + i
      invariant forall k :: 0 <= k < n ==> blocks[k] == NewRoomText(d.newRooms[k])
      invariant forall k :: 0 <= k < |d.updatedRoomPairs| ==> blocks[n + k] == UpdatedRoomText(d.updatedRoomPairs[k])
      invariant forall k :: 0 <= k < i ==> blocks[nu + k] == RemovedRoomText(d.removedRooms[k])
    {
      blocks := blocks + [RemovedRoomText(d.removedRooms[i])];
    }
  }

  // ---------------------------------------------------------------------------
  // Reading the blocks back

  /** The group a block belongs to. */
  datatype BlockKind = NewBlock | UpdatedBlock | RemovedBlock

  /** The group a block text announces by its leading label. */
  function KindOf(text: string): Option<BlockKind>
  {
    if NewLabel <= text then Some(NewBlock)
    else if UpdatedLabel <= text then Some(UpdatedBlock)
    else if RemovedLabel <= text then Some(RemovedBlock)
    else None
  }

  /** Each template announces its own group, whatever the room's fields hold. */
  lemma TextKinds(room: Room, p: RoomPair)
    ensures KindOf(NewRoomText(room)) == Some(NewBlock)
    ensures KindOf(UpdatedRoomText(p)) == Some(UpdatedBlock)
    ensures KindOf(RemovedRoomText(room)) == Some(RemovedBlock)
  {
    var t := NewRoomText(room);
    assert t[..|NewLabel|] == NewLabel;
    var v := UpdatedRoomText(p);
    assert v[..|UpdatedLabel|] == UpdatedLabel;
    assert v[0] == 'U';
    var w := RemovedRoomText(room);
    assert w[..|RemovedLabel|] == RemovedLabel;
    assert w[0] == 'R';
  }

  /** The rendered blocks come in the order new, updated, removed: the label of the i-th
      block tells which group position i falls in. */
  lemma BlocksGrouped(blocks: seq<string>, d: Diff, i: nat)
    requires RendersDiff(blocks, d) && i < |blocks|
    ensures KindOf(blocks[i]) ==
      if i < |d.newRooms| then Some(NewBlock)
      else if i < |d.newRooms| + |d.updatedRoomPairs| then Some(UpdatedBlock)
      else Some(RemovedBlock)
  {
    var n, u := |d.newRooms|, |d.updatedRoomPairs|;
    if i < n {
      TextKinds(d.newRooms[i], RoomPair(d.newRooms[i], d.newRooms[i]));
    } else if i < n + u {
      TextKinds(d.updatedRoomPairs[i - n].newRoom, d.updatedRoomPairs[i - n]);
    } else {
      TextKinds(d.removedRooms[i - n - u], RoomPair(d.removedRooms[i - n - u], d.removedRooms[i - n - u]));
    }
  }
}
