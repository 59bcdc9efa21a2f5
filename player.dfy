/**
 * The player element: it connects to the file-listing service, collects and
 * orders the tracks of the album, turns them into the audio list, and keeps
 * the album's track index and play time across visits.
 *
 * The element's options, the page location, the regular-expression engine,
 * the collator behind `localeCompare` and the storage are fixed when the
 * element is made; the service client and `restoreStatus` are the fields its
 * methods assign. The service is a `Server` parameter and the cover address is
 * given.
 */
module Player {
  import opened Wrappers
  import opened AlistApi
  import opened Config
  import opened Store
  import opened Playback
  import Tracks
  import Helper

  /** One item of the audio list: `{name, artist, url, cover}`. */
  datatype Audio = Audio(name: string, artist: string, url: string, cover: string)

  /** How `connectedCallback` ends. */
  datatype Outcome =
    | Editing
    | InvalidAlbum
    | LoadFailed(error: ApiError)
    | Loaded(audio: seq<Audio>, switchTo: Option<int>)

  /**
   * `Promise.all` over the listing requests: every listing's content, in
   * request order, when all succeed; otherwise the failure of the first
   * failing request in request order.
   */
  function All(results: seq<Result<Listing, ApiError>>): (r: Result<seq<seq<Entry>>, ApiError>)
    ensures r.Success? <==> forall i | 0 <= i < |results| :: results[i].Success?
    ensures r.Success? ==> |r.value| == |results|
    ensures r.Success? ==> forall i | 0 <= i < |results| :: r.value[i] == results[i].value.content
    ensures r.Failure? ==> exists i | 0 <= i < |results| ::
      results[i] == Failure(r.error) && forall j | 0 <= j < i :: results[j].Success?
  {
    if results == [] then Success([])
    else if results[0].Failure? then Failure(results[0].error)
    else
      var rest := All(results[1..]);
      assert forall i | 0 < i < |results| :: results[1..][i - 1] == results[i];
      if rest.Failure? then
        var k :| 0 <= k < |results[1..]| && results[1..][k] == Failure(rest.error) &&
                 forall j | 0 <= j < k :: results[1..][j].Success?;
        assert results[k + 1] == Failure(rest.error);
        rest
      else Success([results[0].value.content] + rest.value)
  }

  /** `getFileList(albumPath + path, password)` with its default page, page size and refresh flag. */
  function Listed(client: Alist, albumPath: string, path: string, password: string,
                  server: Server<Listing>): Result<Listing, ApiError>
    reads client
  {
    client.ListResult(albumPath + path, password, 1, 0, false, server)
  }

  /** The listing requests of `getTrackList`, one per track directory, in directory order. */
  function Requests(client: Alist, albumPath: string, paths: seq<string>, password: string,
                    server: Server<Listing>): (r: seq<Result<Listing, ApiError>>)
    reads client
    ensures |r| == |paths|
    ensures forall i | 0 <= i < |paths| :: r[i] == Listed(client, albumPath, paths[i], password, server)
  {
    seq(|paths|, i reads client requires 0 <= i < |paths| => Listed(client, albumPath, paths[i], password, server))
  }

  class PlayerElement {
    const options: Options
    const location: Location
    const engine: Engine
    const collate: (string, string) -> int
    const storage: Storage
    /** `this.alist`, made by `connectedCallback`. */
    var alist: Alist?
    var restoreStatus: RestoreStatus

    constructor(options: Options, location: Location, engine: Engine, collate: (string, string) -> int, storage: Storage)
      ensures this.options == options && this.location == location && this.engine == engine
      ensures this.collate == collate && this.storage == storage
      ensures alist == null && restoreStatus == Unset
    {
      this.options := options;
      this.location := location;
      this.engine := engine;
      this.collate := collate;
      this.storage := storage;
      this.alist := null;
      this.restoreStatus := Unset;
    }

    /** The album's record key, `getAlistUrl() + getAlbumPath()`. */
    function Key(): string
    {
      RecordKey(options, location)
    }

    /** The sort key of an entry, `parseTrackOrder(item.name)`. */
    function OrderKey(): Entry -> string
    {
      (e: Entry) => TrackOrder(options, engine, e.name)
    }

    /** The restore status and the stored item. */
    function Current(): Session
      reads this, storage
    {
      Session(restoreStatus, storage.item)
    }

    // ------------------------------------------------------------ tracks

    /** The request loop of `getTrackList`: one `getFileList` per track directory, in directory order. */
    method RequestListings(paths: seq<string>, server: Server<Listing>) returns (promises: seq<Result<Listing, ApiError>>)
      requires alist != null
      ensures promises == Requests(alist, GetAlbumPath(options, location), paths, options.albumPassword, server)
    {
      var albumPath := GetAlbumPath(options, location);
      var password := options.albumPassword;
      ghost var expected := Requests(alist, albumPath, paths, password, server);
      promises := [];
      for i := 0 to |paths|
        invariant promises == expected[..i]
      {
        var result := alist.GetFileList(albumPath + paths[i], password, 1, 0, false, server);
        Helper.PrefixStep(expected, i);
        promises := promises + [result];
      }
      assert expected[..|paths|] == expected;
    }

    /**
     * `getTrackList`: one listing request per track directory, then, once all
     * have succeeded, the tagged, concatenated, filtered and sorted entries; a
     * failing request fails the whole list.
     */
    method GetTrackList(server: Server<Listing>) returns (r: Result<seq<Entry>, ApiError>)
      requires alist != null
      ensures var fetched := All(Requests(alist, GetAlbumPath(options, location), GetTrackPaths(options),
                                          options.albumPassword, server));
        && (fetched.Failure? ==> r == Failure(fetched.error))
        && (fetched.Success? ==>
              r == Success(Tracks.TrackList(GetTrackPaths(options), fetched.value, OrderKey(), collate)))
    {
      var paths := GetTrackPaths(options);
      var promises := RequestListings(paths, server);
      var results := All(promises);
      if results.Failure? {
        return Failure(results.error);
      }
      var contents := Tracks.TagAndConcat(paths, results.value);
      var files := Tracks.Files(contents);
      r := Success(Tracks.Sort(files, OrderKey(), collate));
    }

    /** One audio item: the audio name, the artist option, the download address and the cover. */
    function AudioItem(content: Entry, cover: string): (a: Audio)
      reads this, alist
      requires alist != null
      ensures a.name == AudioName(options, engine, content.name)
      ensures a.artist == options.artistName && a.cover == cover
      ensures alist.url + "/d/" <= a.url
      ensures a.url == alist.GetDownloadUrl(GetAlbumPath(options, location) + content.path, content)
    {
      Audio(AudioName(options, engine, content.name), options.artistName,
            alist.GetDownloadUrl(GetAlbumPath(options, location) + content.path, content), cover)
    }

    /**
     * The audio list: one item per non-directory entry, in the order of the
     * entries, all with the same artist and cover.
     */
    function AudioList(contents: seq<Entry>, cover: string): (r: seq<Audio>)
      reads this, alist
      requires alist != null
      ensures |r| == |Tracks.Files(contents)|
      ensures forall i | 0 <= i < |r| :: r[i] == AudioItem(Tracks.Files(contents)[i], cover)
      ensures forall i | 0 <= i < |r| :: r[i].artist == options.artistName && r[i].cover == cover
    {
      if contents == [] then []
      else
        var n := |contents| - 1;
        var before := AudioList(contents[..n], cover);
        Tracks.FilesLast(contents);
        if contents[n].isDir then before else before + [AudioItem(contents[n], cover)]
    }

    /** The audio list of a prefix one entry longer: that of the prefix, then the entry's item unless it is a directory. */
    lemma AudioListStep(contents: seq<Entry>, k: nat, cover: string)
      requires alist != null && k < |contents|
      ensures AudioList(contents[..k + 1], cover) ==
        AudioList(contents[..k], cover) + (if contents[k].isDir then [] else [AudioItem(contents[k], cover)])
    {
      assert contents[..k + 1][..k] == contents[..k];
    }

    /** `toAudioList`: the push loop over the entries, skipping directories. */
    method ToAudioList(contents: seq<Entry>, cover: string) returns (result: seq<Audio>)
      requires alist != null
      ensures result == AudioList(contents, cover)
    {
      result := [];
      var k := 0;
      while k < |contents|
        invariant 0 <= k <= |contents|
        invariant result == AudioList(contents[..k], cover)
      {
        AudioListStep(contents, k, cover);
        if !contents[k].isDir {
          result := result + [AudioItem(contents[k], cover)];
        }
        k := k + 1;
      }
      assert contents[..k] == contents;
    }

    // ----------------------------------------------------------- records

    /** `saveRecord(data)`: read the item, merge the album's record, write the item back. */
    method SaveRecord(data: Record) returns (ok: bool)
      modifies storage
      ensures var saved := SaveRecordIn(old(storage.item), Key(), data);
        ok == saved.Some? && storage.item == Commit(saved, old(storage.item))
    {
      var records := storage.item;
      if records.Absent? {
        records := Records(map[]);
      }
      if records.NotAnObject? {
        return false;
      }
      var key := Key();
      var map_ := records.records;
      if key in map_ {
        map_ := map_[key := Merge(map_[key], data)];
      } else {
        map_ := map_[key := data];
      }
      storage.item := Records(map_);
      ok := true;
    }

    /** `queryRecord()`. */
    method QueryRecord() returns (r: Record)
      ensures r == QueryRecordIn(storage.item, Key())
    {
      var records := storage.item;
      if records.Absent? || records.NotAnObject? {
        return EmptyRecord;
      }
      var key := Key();
      if key in records.records {
        r := records.records[key];
      } else {
        r := EmptyRecord;
      }
    }

    /** `savePlayerIndex(index)`; `ok` is false when `saveRecord` throws. */
    method SavePlayerIndex(index: int) returns (ok: bool)
      modifies storage
      ensures var saved := SavePlayerIndexIn(old(storage.item), Key(), index);
        ok == saved.Some? && storage.item == Commit(saved, old(storage.item))
    {
      ok := true;
      if index >= 0 {
        ok := SaveRecord(IndexRecord(index));
      }
    }

    /** `queryPlayerIndex()`. */
    method QueryPlayerIndex() returns (index: Option<int>)
      ensures index == QueryPlayerIndexIn(storage.item, Key())
    {
      var record := QueryRecord();
      index := record.index;
    }

    /** `savePlayerTime(time)`; `ok` is false when `saveRecord` throws. */
    method SavePlayerTime(time: int) returns (ok: bool)
      modifies storage
      ensures var saved := SavePlayerTimeIn(old(storage.item), Key(), time);
        ok == saved.Some? && storage.item == Commit(saved, old(storage.item))
    {
      ok := true;
      if time >= 0 {
        ok := SaveRecord(TimeRecord(time));
      }
    }

    /** `queryPlayerTime()`. */
    method QueryPlayerTime() returns (time: Option<int>)
      ensures time == QueryPlayerTimeIn(storage.item, Key())
    {
      var record := QueryRecord();
      time := record.time;
      if time == Some(0) {
        time := None;
      }
    }

    // ------------------------------------------------------ restoreStatus

    /** The index restore of `initPlayer` for a list of `length` items; the result is the track switched to. */
    method RestoreIndex(length: nat) returns (switchTo: Option<int>)
      modifies this
      ensures (restoreStatus, switchTo) == RestoreIndexIn(storage.item, Key(), length, old(restoreStatus))
      ensures alist == old(alist)
    {
      switchTo := None;
      var index := QueryPlayerIndex();
      if index.Some? && index.value >= 0 && index.value <= length {
        if index.value > 0 {
          switchTo := index;
        }
        restoreStatus := IndexRestored;
      }
    }

    /** The `play` handler: save the current track index. */
    method OnPlay(index: int)
      modifies storage
      ensures Step(Key(), old(Current()), Play(index)) == (Current(), None)
    {
      var _ := SavePlayerIndex(index);
    }

    /** The `pause` handler: save the current time. */
    method OnPause(time: int)
      modifies storage
      ensures Step(Key(), old(Current()), Pause(time)) == (Current(), None)
    {
      var _ := SavePlayerTime(time);
    }

    /** The `timeupdate` handler: save the current time while playing. */
    method OnTimeUpdate(paused: bool, time: int)
      modifies storage
      ensures Step(Key(), old(Current()), TimeUpdate(paused, time)) == (Current(), None)
    {
      if !paused {
        var _ := SavePlayerTime(time);
      }
    }

    /** The `loadedmetadata` handler: with status 1, restore the time once; the result is the seek. */
    method OnLoadedMetadata(duration: int) returns (seek: Option<int>)
      modifies this
      ensures Step(Key(), old(Current()), LoadedMetadata(duration)) == (Current(), seek)
      ensures alist == old(alist)
    {
      seek := None;
      if restoreStatus == IndexRestored {
        var time := QueryPlayerTime();
        if time.Some? && duration != 0 && time.value <= duration {
          seek := time;
        }
        restoreStatus := TimeRestored;
      }
    }

    // ---------------------------------------------------------- connect

    /**
     * `connectedCallback`: nothing on a document being edited, an error for
     * an empty album path; otherwise a new client for the service address,
     * the track list, the audio list, and the index restore of `initPlayer`.
     */
    method Connect(server: Server<Listing>, cover: string) returns (outcome: Outcome)
      modifies this
      ensures IsEditingDocument(location) ==> outcome == Editing
      ensures !IsEditingDocument(location) && GetAlbumPath(options, location) == "" ==> outcome == InvalidAlbum
      ensures IsEditingDocument(location) || GetAlbumPath(options, location) == "" ==>
        alist == old(alist) && restoreStatus == old(restoreStatus)
      ensures !IsEditingDocument(location) && GetAlbumPath(options, location) != "" ==>
        && alist != null && fresh(alist) && alist.token == ""
        && alist.url == Helper.RemoveEnd(GetAlistUrl(options, location), "/")
        && var fetched := All(Requests(alist, GetAlbumPath(options, location), GetTrackPaths(options),
                                       options.albumPassword, server));
        && (fetched.Failure? ==> outcome == LoadFailed(fetched.error) && restoreStatus == old(restoreStatus))
        && (fetched.Success? ==>
              && outcome.Loaded?
              && outcome.audio == AudioList(Tracks.TrackList(GetTrackPaths(options), fetched.value, OrderKey(), collate), cover)
              && (restoreStatus, outcome.switchTo) ==
                   RestoreIndexIn(storage.item, Key(), |outcome.audio|, old(restoreStatus)))
    {
      if IsEditingDocument(location) {
        return Editing;
      }
      if GetAlbumPath(options, location) == "" {
        return InvalidAlbum;
      }
      alist := new Alist(GetAlistUrl(options, location));
      var tracks := GetTrackList(server);
      if tracks.Failure? {
        return LoadFailed(tracks.error);
      }
      var list := ToAudioList(tracks.value, cover);
      var switchTo := RestoreIndex(|list|);
      outcome := Loaded(list, switchTo);
    }
  }
}
