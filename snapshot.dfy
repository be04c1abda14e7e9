/** The snapshot kept in a spreadsheet range: decoding its rows into rooms on load, and
    encoding rooms into rows on save. The spreadsheet calls themselves are outcomes given
    to the operations. */
module Snapshot {
  import opened Wrappers
  import opened Rooms

  /** The range the snapshot occupies: five columns, from row 2 on. */
  const SheetRange := "sheet1!A2:E100"

  /** The number of cells a well-formed snapshot row has. */
  const RowWidth := 5

  /** The prefix that makes the spreadsheet keep an id as text. */
  const TextMarker := "'"

  /** A request sent to the spreadsheet while saving. */
  datatype SheetRequest = BatchClear(range: string) | BatchUpdate(range: string, values: seq<seq<string>>)

  /** The rooms read from a snapshot's rows: rows of five cells, in order, with their
      cells as id, title, price, layout and size; every other row is skipped. */
  function Decoded(rows: seq<seq<string>>): (rooms: seq<Room>)
    ensures |rooms| <= |rows|
    decreases |rows|
  {
    if rows == [] then []
    else
      var earlier, row := rows[..|rows| - 1], rows[|rows| - 1];
      Decoded(earlier) + (if |row| == RowWidth then [Room(row[0], row[1], row[2], row[3], row[4])] else [])
  }

  /** The row saved for one room: the id behind the text marker, the other fields as they are. */
  function EncodedRow(room: Room): (row: seq<string>)
    ensures |row| == RowWidth
  {
    [TextMarker + room.id, room.title, room.price, room.layout, room.size]
  }

  /** The rows saved for a list of rooms: one row per room, in order. */
  function Encoded(rooms: seq<Room>): (rows: seq<seq<string>>)
  {
    seq(|rooms|, i requires 0 <= i < |rooms| => EncodedRow(rooms[i]))
  }

  /** The decode loop of loadPreviousRooms. */
  method DecodeRows(rows: seq<seq<string>>) returns (rooms: seq<Room>)
    ensures rooms == Decoded(rows)
  {
    rooms := [];
    for i := 0 to |rows|
      invariant rooms == Decoded(rows[..i])
    {
      assert rows[..i + 1][..i] == rows[..i];
      var row := rows[i];
      if |row| != RowWidth {
        continue;
      }
      rooms := rooms + [Room(row[0], row[1], row[2], row[3], row[4])];
    }
    assert rows[..|rows|] == rows;
  }

  /** The encode loop of saveRooms. */
  method EncodeRows(rooms: seq<Room>) returns (values: seq<seq<string>>)
    ensures values == Encoded(rooms)
  {
    values := [];
    for i := 0 to |rooms|
      invariant values == Encoded(rooms[..i])
    {
      values := values + [EncodedRow(rooms[i])];
    }
    assert rooms[..|rooms|] == rooms;
  }

  /** loadPreviousRooms: a failed read is passed on; otherwise the decoded rows. */
  method LoadPreviousRooms(response: Result<seq<seq<string>>, string>) returns (r: Result<seq<Room>, string>)
    ensures response.Failure? ==> r == Failure(response.error)
    ensures response.Success? ==> r == Success(Decoded(response.value))
  {
    if response.Failure? {
      return Failure(response.error);
    }
    var rooms := DecodeRows(response.value);
    return Success(rooms);
  }

  /** The error saveRooms ends with: that of the first of its three calls to fail. */
  function SaveError(serviceErr: Option<string>, clearErr: Option<string>, updateErr: Option<string>): Option<string>
  {
    if serviceErr.Some? then serviceErr else if clearErr.Some? then clearErr else updateErr
  }

  /** The spreadsheet requests saveRooms sends: none when it cannot connect, the clear
      alone when the clear fails, and otherwise the clear followed by the full write. */
  function SaveRequests(rooms: seq<Room>, serviceErr: Option<string>, clearErr: Option<string>): seq<SheetRequest>
  {
    if serviceErr.Some? then []
    else if clearErr.Some? then [BatchClear(SheetRange)]
    else [BatchClear(SheetRange), BatchUpdate(SheetRange, Encoded(rooms))]
  }

  /** saveRooms: connect, clear the range, then write every room into it. The first
      failure ends the save and is its result; a failed clear sends no update. */
  method SaveRooms(rooms: seq<Room>, serviceErr: Option<string>, clearErr: Option<string>, updateErr: Option<string>)
    returns (err: Option<string>, requests: seq<SheetRequest>)
    ensures err == SaveError(serviceErr, clearErr, updateErr)
    ensures requests == SaveRequests(rooms, serviceErr, clearErr)
  {
    if serviceErr.Some? {
      return serviceErr, [];
    }
    var values := EncodeRows(rooms);
    requests := [BatchClear(SheetRange)];
    if clearErr.Some? {
      return clearErr, requests;
    }
    requests := requests + [BatchUpdate(SheetRange, values)];
    if updateErr.Some? {
      return updateErr, requests;
    }
    return None, requests;
  }

  // ---------------------------------------------------------------------------
  // Properties of the row format

  /** Decoding respects concatenation: rows are decoded one by one, in order. */
  lemma {:induction false} DecodedAppend(a: seq<seq<string>>, b: seq<seq<string>>)
    ensures Decoded(a + b) == Decoded(a) + Decoded(b)
    decreases |b|
  {
    if b == [] {
      assert a + b == a;
    } else {
      var earlier := b[..|b| - 1];
      assert (a + b)[..|a + b| - 1] == a + earlier;
      DecodedAppend(a, earlier);
    }
  }

  /** A row that does not have exactly five cells contributes nothing: removing it from
      anywhere leaves the decoded rooms unchanged. */
  lemma MalformedRowSkipped(a: seq<seq<string>>, row: seq<string>, b: seq<seq<string>>)
    requires |row| != RowWidth
    ensures Decoded(a + [row] + b) == Decoded(a + b)
  {
    DecodedAppend(a + [row], b);
    DecodedAppend(a, [row]);
    DecodedAppend(a, b);
    assert Decoded([row]) == [];
  }

  /** A row of five cells decodes, in place, to the room its columns spell out. */
  lemma WellFormedRowKept(a: seq<seq<string>>, row: seq<string>, b: seq<seq<string>>)
    requires |row| == RowWidth
    ensures Decoded(a + [row] + b) == Decoded(a) + [Room(row[0], row[1], row[2], row[3], row[4])] + Decoded(b)
  {
    DecodedAppend(a + [row], b);
    DecodedAppend(a, [row]);
    assert [row][..0] == [];
  }

  /** Decoding the saved rows gives back every room, in order, with the text marker in
      front of its id and the other fields unchanged. */
  lemma {:induction false} DecodeEncoded(rooms: seq<Room>)
    ensures |Decoded(Encoded(rooms))| == |rooms|
    ensures forall i :: 0 <= i < |rooms| ==>
      Decoded(Encoded(rooms))[i] == rooms[i].(id := TextMarker + rooms[i].id)
    decreases |rooms|
  {
    if rooms != [] {
      var earlier := rooms[..|rooms| - 1];
      assert Encoded(rooms)[..|rooms| - 1] == Encoded(earlier);
      DecodeEncoded(earlier);
    }
  }
}
