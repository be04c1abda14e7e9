# room_crawler, modelled in Dafny

room_crawler scrapes a page of rental listings, compares the rooms it finds with the
snapshot saved by the previous run, posts the new, updated and removed rooms to a chat
webhook, and saves the current rooms as the new snapshot in a spreadsheet. This project
models the logic of `src/room_crawler.go` and proves properties of it:

- `Rooms` — the `room`, `roomPair` and `diff` records, and `roomPair.hasDiff`.
- `DiffEngine` — `detectDiff`, as three loops: build the lookup from the previous rooms
  (the last previous room with an id wins), walk the current rooms deleting every matched
  id, then list what is left of the lookup. Each loop is a method proved against a
  functional definition, and lemmas state what the diff means.
- `Snapshot` — the row decoding of `loadPreviousRooms`, the row encoding of `saveRooms`,
  and the order of the spreadsheet calls in both.
- `Notifier` — `room.url` and the block texts of `newDiffSlackLayoutBlocks`.
- `Extractor` and `Text` — what `fetchAllRooms`/`newRoom` do with the texts of each list
  item (trim, join the title spans, skip items without a `data-id`), with `strings.Trim`
  and `strings.Join`.
- `Crawler` — `Execute`: its sequencing, early returns and error aggregation.

Every external call is an input. This covers the page fetch, the spreadsheet read, clear
and write, and the webhook post. Each input is either the call's result or its error text
(the `Outcomes` record). `Execute` returns its error, the blocks it handed to the webhook,
the spreadsheet requests it sent, and the diff it computed. A Go `nil` diff or error is `None`.

Two facts about the code shape the model:
- The trim cutset at `src/room_crawler.go:123` is space, tab and newline only;
  full-width spaces are not trimmed.
- Nothing makes ids unique within a list. The model handles duplicate ids as the code
  does: the last previous room with an id wins, and a current room whose id an earlier
  current room already matched is new. The no-diff-on-self property therefore needs
  unique ids.

`detectDiff` returns `nil` when `reflect.DeepEqual(*d, diff{})` holds. Its slices start
`nil` and only ever grow by `append`. So that test is the same as all three lists being
empty, and the model tests exactly that.

## Model

| member | source | states |
|---|---|---|
| Rooms.HasDiff | src/room_crawler.go:306-308 | for a pair matched by id, it reports a difference exactly when title, price, layout or size differ under exact string comparison |
| DiffEngine.Lookup | src/room_crawler.go:178-181 | the lookup's keys are exactly the previous ids, and each key maps to a previous room carrying that id |
| DiffEngine.LookupLastWins | src/room_crawler.go:178-181 | with duplicate previous ids, the lookup holds the last previous room with that id |
| DiffEngine.BuildLookup | src/room_crawler.go:177-181 | the map-building loop yields exactly the lookup |
| DiffEngine.NewRoomsOf | src/room_crawler.go:183-192 | new rooms are drawn from the current rooms, in input order: those whose id is not a previous id, or was already consumed by an earlier current room |
| DiffEngine.UpdatedPairsOf | src/room_crawler.go:183-189 | each updated pair holds a current room and the lookup entry for its id, and the two differ |
| DiffEngine.MatchRooms | src/room_crawler.go:183-193 | the loop over current rooms yields the new rooms, the updated pairs, and the lookup minus every current id |
| DiffEngine.ListRemaining | src/room_crawler.go:195-197 | removed rooms list each remaining lookup entry exactly once, in some order |
| DiffEngine.DetectDiff | src/room_crawler.go:176-204 | the result is None exactly when new, updated and removed are all empty; otherwise it holds those three lists |
| DiffEngine.DuplicateIsNew | src/room_crawler.go:183-192 | a current room whose id an earlier current room carries is always new and adds no updated pair |
| DiffEngine.NewRoomsInInputOrder | src/room_crawler.go:183-192 | the new rooms found in a prefix of the current rooms stay, in order, at the front of the final list |
| DiffEngine.MatchedCountBound | src/room_crawler.go:183-193 | the number of new rooms plus the number of updated pairs is at most the number of current rooms |
| DiffEngine.RemovedBounds | src/room_crawler.go:189-197 | at most one removed room per distinct previous id, no removed id is a current id, and each removed room is the lookup's (last) room for its id |
| DiffEngine.UniqueMembership | src/room_crawler.go:183-192 | with unique current ids, a room is new iff its id is not a previous id, and a pair is updated iff it matches a room with its differing lookup entry |
| DiffEngine.MatchedRoom | src/room_crawler.go:184-189 | with unique current ids, a matched room is never new or removed; it yields an updated pair iff a field differs, and no other pair carries its id |
| DiffEngine.PermutationNoDiff | src/room_crawler.go:176-204 | two lists with unique ids and the same rooms in any order give no diff, and so does a list compared with itself |
| DiffEngine.DisjointIds | src/room_crawler.go:183-192 | when no current id is in the lookup, every current room is new, in order, and nothing is updated |
| DiffEngine.DisjointLists | src/room_crawler.go:176-197 | with disjoint id sets, all current rooms are new, none is updated, and every previous id is removed |
| DiffEngine.PreviousOrderIrrelevant | src/room_crawler.go:178-181 | reordering a previous list with unique ids changes neither the lookup nor any part of the diff |
| Snapshot.Decoded | src/room_crawler.go:159-171 | decoding yields at most one room per row |
| Snapshot.DecodeRows | src/room_crawler.go:159-171 | the decode loop yields exactly the decoded rooms |
| Snapshot.DecodedAppend | src/room_crawler.go:160-171 | rows are decoded one by one in order: decoding a concatenation concatenates the decodings |
| Snapshot.MalformedRowSkipped | src/room_crawler.go:161-164 | a row without exactly five cells contributes nothing, wherever it stands |
| Snapshot.WellFormedRowKept | src/room_crawler.go:165-170 | a five-cell row decodes, in place, to the room with cells 0..4 as id, title, price, layout, size |
| Snapshot.EncodedRow | src/room_crawler.go:223 | every saved row has exactly five cells |
| Snapshot.EncodeRows | src/room_crawler.go:221-224 | the encode loop yields one row per room, in order |
| Snapshot.DecodeEncoded | src/room_crawler.go:221-224 | decoding the saved rows gives back every room in order, with the id behind the `'` marker and the other fields unchanged |
| Snapshot.LoadPreviousRooms | src/room_crawler.go:149-174 | a failed read is passed on unchanged; otherwise the result is the decoded rows |
| Snapshot.SaveRooms | src/room_crawler.go:215-243 | the save fails with its first failing call; the requests sent are those of SaveRequests: nothing after a failed connection, no write after a failed clear, and otherwise a clear then a write of all rows |
| Notifier.Url | src/room_crawler.go:245-247 | the url is the fixed detail-page prefix followed by the id |
| Notifier.DiffBlocks | src/room_crawler.go:249-301 | one block per new room, then per updated pair, then per removed room, each in list order, with the New/Updated/Removed templates |
| Notifier.TextKinds | src/room_crawler.go:258-296 | each template announces its own group by its leading label, whatever the fields hold |
| Notifier.BlocksGrouped | src/room_crawler.go:252-301 | the label of the i-th block tells which group position i falls in: new, then updated, then removed |
| Text.TrimLeft | src/room_crawler.go:123 | strings.TrimLeft keeps a suffix, drops only cutset characters, and leaves no leading cutset character |
| Text.TrimRight | src/room_crawler.go:123 | strings.TrimRight keeps a prefix, drops only cutset characters, and leaves no trailing cutset character |
| Text.Join | src/room_crawler.go:81 | strings.Join of no parts is empty, of one part is that part, and otherwise starts with the first part |
| Text.JoinAppend | src/room_crawler.go:142 | joining one more part appends the separator and that part: the parts are joined left to right with one separator between each two |
| Text.Trim | src/room_crawler.go:123 | strings.Trim keeps one contiguous middle part of the text, cuts only cutset characters before and after it, and leaves no cutset character at either end |
| Extractor.NewRoom | src/room_crawler.go:115-147 | an item gives a room exactly when it has a data-id; the room's id is that data-id as it is, its title the trimmed title spans joined with single spaces, and its price, layout and size the trimmed texts |
| Extractor.NewRoomTrimmed | src/room_crawler.go:125-138 | price, layout and size come out with no space, tab or newline at either end |
| Extractor.RoomsOf | src/room_crawler.go:105-112 | a page gives at most one room per list item |
| Extractor.FetchAllRooms | src/room_crawler.go:99-113 | the collection loop yields exactly the rooms of the page's items |
| Extractor.IdsFromDataIds | src/room_crawler.go:106-118 | the extracted ids are exactly the data-ids present on the items |
| Extractor.IdsInDocumentOrder | src/room_crawler.go:106-118 | the extracted rooms carry the items' present data-ids one for one, in document order |
| Crawler.ReportDiff | src/room_crawler.go:70-81 | both the post and the save are attempted; the error is None iff both succeed, else the failure messages joined by a newline (by Text.JoinAppend), the post's first |
| Crawler.Execute | src/room_crawler.go:53-82 | a failed fetch or load returns its prefixed error before any diff; no diff means success with nothing posted or saved; otherwise the diff's blocks are posted and the rooms saved, with errors aggregated |
| Crawler.ExecuteUnchanged | src/room_crawler.go:59-68 | a run over the snapshot's own rooms, with unique ids and in any order, succeeds without posting or touching the spreadsheet |

## Left out

- HTML traversal in `fetchAllRooms`/`newRoom`: the goquery selectors are a foreign library. The model starts from the texts each list item yields (`Extractor.Item`).
- Google Sheets client calls: network I/O and credentials. Each call is an outcome given to the model. How the store treats the values is not modelled. This includes dropping the `'` marker, omitting trailing empty cells on read, and the `A2:E100` range holding at most 99 rows.
- `notifySlack`, `NotifyError` and the JSON encoding in `newDiffSlackLayoutBlocks`: HTTP and `encoding/json`. Blocks are modelled as their texts. The post's outcome is an input. `notifySlack` does not look at the HTTP status, so only transport failures reach it.
- The `row[i].(string)` assertions, which panic on a non-string cell: rows are modelled as sequences of strings.
- The environment-variable settings and `fmt.Println` logging.
- `main.go` and `cli/main.go`: the HTTP handler and the exit-code mapping around `Execute`.
- Character encoding: Go trims UTF-8 runes, while the model trims Dafny characters.
- DiffEngine.ListRemaining: the removed rooms are specified only up to order, because Go's map iteration order is unspecified.
