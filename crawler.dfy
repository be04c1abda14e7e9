/** Execute: one crawl, from fetching the listings to notifying and saving the diff. */
module Crawler {
  import opened Wrappers
  import opened Rooms
  import opened DiffEngine
  import opened Snapshot
  import opened Notifier
  import opened Text
  import opened Extractor

  /** What the outside world answers to each call a run makes: the list items of the
      listings page or a fetch error, the snapshot rows or a read error, and the error (if any) of the
      webhook post and of the three spreadsheet calls of the save. */
  datatype Outcomes = Outcomes(
    fetched: Result<seq<Item>, string>,
    loaded: Result<seq<seq<string>>, string>,
    notifyErr: Option<string>,
    saveServiceErr: Option<string>,
    clearErr: Option<string>,
    updateErr: Option<string>)

  const FetchFailed := "failed to fetch rooms: "
  const LoadFailed := "failed to load previous rooms: "
  const NotifyFailed := "failed to notify diff: "
  const SaveFailed := "failed to save rooms: "

  /** The error a run with a non-empty diff ends with: none when both the notification
      and the save succeed; otherwise their failure messages, the notification's first,
      one per line. */
  function RunError(notifyErr: Option<string>, saveErr: Option<string>): Option<string>
  {
    if notifyErr.None? && saveErr.None? then None
    else if saveErr.None? then Some(NotifyFailed + notifyErr.value)
    else if notifyErr.None? then Some(SaveFailed + saveErr.value)
    else Some((NotifyFailed + notifyErr.value) + "\n" + (SaveFailed + saveErr.value))
  }

  /** The last part of Execute, for a non-empty diff: post the diff's blocks, then save
      the current rooms whatever the post gave, and join the failures. */
  method ReportDiff(rooms: seq<Room>, d: Diff, env: Outcomes)
    returns (err: Option<string>, blocks: seq<string>, requests: seq<SheetRequest>)
    ensures RendersDiff(blocks, d)
    ensures requests == SaveRequests(rooms, env.saveServiceErr, env.clearErr)
    ensures err == RunError(env.notifyErr, SaveError(env.saveServiceErr, env.clearErr, env.updateErr))
  {
    var errTexts: seq<string> := [];
    blocks := DiffBlocks(d);
    if env.notifyErr.Some? {
      errTexts := errTexts + [NotifyFailed + env.notifyErr.value];
    }
    var saveErr;
    saveErr, requests := SaveRooms(rooms, env.saveServiceErr, env.clearErr, env.updateErr);
    if saveErr.Some? {
      errTexts := errTexts + [SaveFailed + saveErr.value];
    }

    if |errTexts| == 0 {
      err := None;
    } else {
      if |errTexts| == 2 {
        assert errTexts == [errTexts[0]] + [errTexts[1]];
        JoinAppend([errTexts[0]], errTexts[1], "\n");
      }
      err := Some(Join(errTexts, "\n"));
    }
  }

  /** Execute. A failed fetch or load ends the run before any diff is computed; no diff
      ends it successfully with nothing posted or saved; otherwise the blocks of the diff
      are posted and the current rooms saved, both always attempted. `posted` is the
      block list handed to the webhook, `requests` the spreadsheet requests sent, and
      `found` the diff that was computed. */
  method Execute(env: Outcomes)
    returns (err: Option<string>, posted: Option<seq<string>>, requests: seq<SheetRequest>, found: Option<Diff>)
    ensures env.fetched.Failure? ==>
      err == Some(FetchFailed + env.fetched.error) && posted == None && requests == [] && found == None
    ensures env.fetched.Success? && env.loaded.Failure? ==>
      err == Some(LoadFailed + env.loaded.error) && posted == None && requests == [] && found == None
    ensures env.fetched.Success? && env.loaded.Success? ==>
      var rooms, previousRooms := RoomsOf(env.fetched.value), Decoded(env.loaded.value);
      && (found.None? <==> NoDiff(rooms, previousRooms))
      && (found.None? ==> err == None && posted == None && requests == [])
      && (found.Some? ==>
            && IsDiffOf(found.value, rooms, previousRooms)
            && posted.Some? && RendersDiff(posted.value, found.value)
            && requests == SaveRequests(rooms, env.saveServiceErr, env.clearErr)
            && err == RunError(env.notifyErr, SaveError(env.saveServiceErr, env.clearErr, env.updateErr)))
  {
    found, posted, requests := None, None, [];
    if env.fetched.Failure? {
      err := Some(FetchFailed + env.fetched.error);
      return;
    }
    var rooms := FetchAllRooms(env.fetched.value);

    var pRooms := LoadPreviousRooms(env.loaded);
    if pRooms.Failure? {
      err := Some(LoadFailed + pRooms.error);
      return;
    }

    var d := DetectDiff(rooms, pRooms.value);
    found := d;
    if d.None? {
      err := None;
      return;
    }

    var blocks;
    err, blocks, requests := ReportDiff(rooms, d.value, env);
    posted := Some(blocks);
  }

  /** A run over an unchanged page (the snapshot's rooms again, ids unique, in any order)
      succeeds without posting anything or touching the spreadsheet. */
  method ExecuteUnchanged(env: Outcomes) returns (err: Option<string>, posted: Option<seq<string>>, requests: seq<SheetRequest>)
    requires env.fetched.Success? && env.loaded.Success?
    requires UniqueIds(RoomsOf(env.fetched.value))
    requires multiset(RoomsOf(env.fetched.value)) == multiset(Decoded(env.loaded.value))
    ensures err == None && posted == None && requests == []
  {
    PermutationNoDiff(RoomsOf(env.fetched.value), Decoded(env.loaded.value));
    var found;
    err, posted, requests, found := Execute(env);
  }
}
