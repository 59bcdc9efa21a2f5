# ysxs-player, modelled in Dafny

ysxs-player is a custom HTML element, `<ysxs-player>`, that plays an audio
book stored on an Alist file server. It lists the album's track directories
through the Alist HTTP API and turns the files into an ordered playlist. It
also remembers, per album, which track was playing and where.

This project models the part of it that is logic rather than browser glue.

- `helper.dfy` (module `Helper`) holds the string helpers:
  - JavaScript's `slice`;
  - removing and completing a keyword at either border of a string;
  - zero padding;
  - the conversion of attribute names to lower camel case;
  - the dual-mode comparator used to sort the playlist.
- `alist.dfy` (module `AlistApi`) holds the Alist client: its base address and token, the download address of a listed file, the path normalisation of a listing request, and the request options with the response check.
- `config.dfy` (module `Config`) holds what the element derives from its options and its page:
  - the service address;
  - the album path and the key of its playback record;
  - the track directories split on `|`;
  - the "document being edited" test;
  - the rule that turns a regular-expression match into a sort key or a track name.
- `tracks.dfy` (module `Tracks`) holds the post-fetch part of `getTrackList`:
  - tagging every entry with its track directory;
  - concatenating the listings in directory order;
  - dropping directories;
  - the stable sort by order key.
- `store.dfy` (module `Store`) holds the records item in `localStorage`, with `saveRecord` and `queryRecord` over it.
- `playback.dfy` (module `Playback`) holds:
  - saving and querying the track index and the play time;
  - the `restoreStatus` machine, as a pure step function over events;
  - a lemma that the time is restored at most once.
- `player.dfy` (module `Player`) holds the element itself, class `PlayerElement`, whose methods are proved against the functions above:
  - `connectedCallback` (as `Connect`);
  - `getTrackList`, with its request loop and `Promise.all`;
  - `toAudioList`;
  - the record methods;
  - the event handlers.
- `wrappers.dfy` holds `Option` and `Result`.

Each parameter below stands for something outside the model:

- The HTTP exchange is a function `Server<T>` from the address and request options to the decoded JSON response.
- The regular-expression engine is an `Engine` returning the whole match and the first group.
- `localeCompare` is a collator parameter.
- The page location is given with its pathname already decoded.
- The cover address is given.

## Model

| member | source | states |
|---|---|---|
| Helper.SliceHeadIsPrefix | v1/helper.js:114 | `content.slice(0, keyword.length) === keyword` holds exactly when the content starts with the keyword |
| Helper.SliceTailIsSuffix | v1/helper.js:130 | for a non-empty keyword, `content.slice(-keyword.length) === keyword` holds exactly when the content ends with the keyword |
| Helper.RemoveStartAsWritten | v1/helper.js:113-120 | the as-written `removeStart`: on a match the result is the content from after the keyword up to `len - |kw| + 1` (clamped), otherwise the content unchanged |
| Helper.RemoveStart | v1/helper.js:113-120 | intended `removeStart`: when the content starts with the keyword, content = keyword + result; otherwise the result is the content |
| Helper.RemoveStartAsWrittenOneChar | v1/helper.js:113-120 | for keywords of at most one character (every caller uses "/") the as-written and intended versions agree |
| Helper.RemoveStartAsWrittenLosesTail | v1/helper.js:116 | for a keyword of two or more characters that the content starts with, the as-written result is strictly shorter than the intended one |
| Helper.RemoveStartAsWrittenExample | v1/helper.js:116 | "abcd" without "ab" gives "c" as written and "cd" as intended |
| Helper.RemoveEnd | v1/helper.js:129-135 | when a non-empty keyword ends the content, content = result + keyword; otherwise the content is unchanged |
| Helper.RemoveBorder | v1/helper.js:144-146 | the result is never longer than the content; with the keyword at both ends (and room for both) it is the middle between them |
| Helper.RemoveBorderAsWrittenOneChar | v1/helper.js:144-146 | for a keyword of at most one character (the "/" every caller passes) `removeBorder` over the as-written `removeStart` equals the modelled one |
| Helper.RemoveBorderAsWrittenExample | v1/helper.js:144-146 | for a two-character keyword they differ: "abXYab" without "ab" at both borders is "XYa" as written and "XY" as modelled |
| Helper.CompleteStart | v1/helper.js:155-161 | the result starts with the keyword; it is the content when that already starts with the keyword, otherwise keyword + content |
| Helper.CompleteEnd | v1/helper.js:170-176 | the result ends with the keyword; it is the content when that already ends with it, otherwise content + keyword |
| Helper.CompleteBorder | v1/helper.js:185-187 | the result both starts and ends with the keyword |
| Helper.CompleteStartIdempotent | v1/helper.js:155-161 | completing the start twice is completing it once |
| Helper.CompleteEndIdempotent | v1/helper.js:170-176 | completing the end twice is completing it once |
| Helper.CompleteBorderIdempotent | v1/helper.js:185-187 | completing both borders twice is completing them once |
| Helper.RemoveStartCompleteStart | v1/helper.js:113-161 | for content not starting with the keyword, removing the completed start gives the content back |
| Helper.RemoveEndCompleteEnd | v1/helper.js:129-176 | for content not ending with a non-empty keyword, removing the completed end gives the content back |
| Helper.Decimal | v1/helper.js:103 | the decimal form of a natural number is a non-empty digit string without leading zero |
| Helper.DecimalRoundTrip | v1/helper.js:103 | reading back the decimal form of n gives n |
| Helper.Padding | v1/helper.js:102-104 | `padding(n, len)`: for len >= 1 exactly len characters; the decimal form left-filled with zeros when it fits, otherwise its last len characters; for len 0 the decimal form itself |
| Helper.PaddingRoundTrip | v1/helper.js:102-104 | a padded natural number that fits is a digit string whose value is the number |
| Helper.Camelize | v1/helper.js:50-58 | the result never starts with a separator `_ . - space` |
| Helper.CamelTailPlain | v1/helper.js:55-58 | a string without separators is unchanged by the separator replacement |
| Helper.CamelizeTrailingRun | v1/helper.js:50-58 | a trailing run of separators is dropped: appending one does not change the result |
| Helper.KebabToCamel | v1/helper.js:50-58 | a kebab-case name `w0-w1-...-wn` becomes `w0` lower-cased followed by each later word lower-cased with its first letter upper-cased |
| Helper.CamelizeListMaxHeight | v1/helper.js:51 | `list-max-height` becomes `listMaxHeight` |
| Helper.Compare | v1/helper.js:68-93 | with both keys numeric: 0 for equal values, +asc when the first is larger, -asc when smaller (asc = 1 unless given falsy); otherwise the collator's result, asc ignored |
| Helper.CompareAntisymmetric | v1/helper.js:81-91 | for numeric keys, swapping the keys negates the result |
| Helper.CompareDescending | v1/helper.js:69-73 | for numeric keys, `asc = false` reverses ascending order, and an undefined `asc` is ascending |
| Helper.ComparePadded | v1/helper.js:68-104 | zero-padded numbers of one width compare as the numbers they denote |
| AlistApi.CheckResponse | v1/alist.js:47-50 | the response is accepted exactly when its code is 200, giving its data; otherwise an error carrying the endpoint and the response message |
| AlistApi.InitFor | v1/alist.js:35-43 | POST exactly when data is given, Content-Type JSON exactly when data is given, Authorization exactly when the token is non-empty, no other header, the data as body |
| AlistApi.NormalizeListPath | v1/alist.js:123-126 | the result is empty exactly for "" and "/"; a non-empty result starts with "/"; it ends with "/" only if the path ended with "//" |
| AlistApi.NormalizeListPathSpellings | v1/alist.js:123-126 | `a`, `/a`, `a/` and `/a/` are sent as the same path `/a` |
| AlistApi.ParseComposed | v1/alist.js:61-68 | an address composed from base, locator and signature (locator without "?") parses back to the locator and the signature |
| AlistApi.Alist.constructor | v1/alist.js:21-24 | the base address is `removeEnd(url)`: it loses one trailing "/" if it has one and is kept otherwise; the token is empty |
| AlistApi.Alist.ToDownloadUrl | v1/alist.js:61-68 | the address starts with the base followed by `/d/` and parses back to `removeBorder(path) + "/" + removeStart(name)` and the signature |
| AlistApi.DownloadUrlQueryOnce | v1/alist.js:63-66 | when no part contains "?", the address has exactly one "?" if signed and none otherwise |
| AlistApi.Alist.GetDownloadUrl | v1/alist.js:77-79 | the item's download address with its signature; an unsigned item's address has no query string |
| AlistApi.Alist.Request | v1/alist.js:33-51 | the options are built step by step as `InitFor` describes, sent to base + endpoint, and the response is checked by `CheckResponse` |
| AlistApi.Alist.GetFileList | v1/alist.js:122-134 | the response to a `/api/fs/list` request whose path is normalised as `NormalizeListPath` describes |
| Config.GetAlistUrl | v1/player.js:225-227 | the configured service address, or the page's origin when none is configured |
| Config.GetAlbumPath | v1/player.js:234-241 | one trailing "/" dropped only from paths longer than two characters; empty exactly when no path is configured and the page has none |
| Config.RecordKey | v1/player.js:448 | the record key is the service address followed by the album path |
| Config.RecordKeyTrailingSlash | v1/player.js:234-241 | a configured album path of two or more characters gives the same record key with or without one trailing "/" |
| Config.RecordKeyServiceSlash | v1/player.js:225-227 | the service address is not trimmed: one trailing "/" on it makes the record key one character longer, so a different key |
| Config.IsEditingDocument | v1/player.js:42 | the page is a document being edited exactly when its pathname ends with ".md" |
| Config.Split | v1/player.js:267 | one piece more than separators, no piece containing the separator |
| Config.JoinSplit | v1/player.js:267 | joining the pieces of a split with the separator gives back the string |
| Config.SplitJoin | v1/player.js:267 | splitting a join of separator-free pieces gives back the pieces |
| Config.GetTrackPaths | v1/player.js:266-269 | the track path option ("/track" by default) split on `|`: the pieces are separator-free, one more than the separators, and join back to the option |
| Config.TrackPathsOfJoin | v1/player.js:266-269 | directories written joined by `|` are read back as those directories |
| Config.ParseCapture | v1/player.js:346-378 | no pattern or no match gives the name; a match gives group 1 when non-empty, else the whole match; the result is empty only for an empty name or an empty match |
| Config.ParseCaptureWithin | v1/player.js:346-378 | when the engine returns a piece of the name whose group is a piece of the match, the result is a piece of the name |
| Config.TrackOrder | v1/player.js:346-358 | without an order pattern the sort key is the name; with a well-behaved engine it is a piece of the name |
| Config.AudioName | v1/player.js:304-309 | album name, a space, then the parsed track name or the file name when that is empty; the space follows the album name even when that is empty |
| Tracks.Tagged | v1/player.js:101-111 | the collected list has as many entries as all listings together |
| Tracks.TaggedAt | v1/player.js:101-111 | entry j of listing i sits after all entries of earlier listings, at offset j, carrying the path of directory i |
| Tracks.TagAndConcat | v1/player.js:101-111 | the nested loops produce exactly the tagged concatenation |
| Tracks.Files | v1/player.js:114-119 | no directory is left, and every non-directory entry keeps its multiplicity |
| Tracks.FilesAppend | v1/player.js:114-119 | filtering keeps the order: the files of a concatenation are the files of each part in turn |
| Tracks.CmpNumeric | v1/player.js:122-124 | for numeric keys the ascending comparator says "not after" exactly when the key value is not larger |
| Tracks.Insert | v1/player.js:122-124 | inserting adds exactly one occurrence of the entry |
| Tracks.Sort | v1/player.js:122-124 | the sorted list is a permutation of the input |
| Tracks.InsertSorted | v1/player.js:122-124 | inserting into a list sorted by numeric key keeps it sorted |
| Tracks.SortSorted | v1/player.js:122-124 | with every key numeric, the sorted list is ascending by key value |
| Tracks.InsertHaving | v1/player.js:122-124 | an inserted entry goes first among the entries of its key value |
| Tracks.SortStable | v1/player.js:122-124 | with every key numeric, the entries of each key value keep their original order |
| Tracks.SortedPairs | v1/player.js:122-124 | in a sorted list every earlier entry has a key value no larger than every later one |
| Tracks.TrackListProperties | v1/player.js:101-125 | the track list holds no directory and is a permutation of the files collected; with numeric keys it is ascending and stable |
| Store.Merge | v1/player.js:450 | `Object.assign({}, old, data)`: each field present in the data overrides, the others are kept |
| Store.MergeLaws | v1/player.js:449-453 | merging into an empty record gives the data; merging the same data twice equals once; merges associate |
| Store.QueryRecordIn | v1/player.js:464-480 | the album's record if the item is an object holding one, otherwise the empty record |
| Store.SaveRecordIn | v1/player.js:442-457 | fails exactly on a non-object item; otherwise the album's record becomes the old one merged with the data, every other album's record is unchanged, and the key set gains the album |
| Store.Storage.constructor | v1/player.js:444 | the storage holds the given item |
| Playback.QueryPlayerIndexIn | v1/player.js:398-407 | the stored index, 0 included; none when nothing is stored |
| Playback.QueryPlayerTimeIn | v1/player.js:427-435 | the stored time, never 0: a stored 0 counts as no time |
| Playback.SavePlayerIndexIn | v1/player.js:385-390 | a negative index changes nothing; otherwise it fails exactly on a non-object item, reads back as stored, keeps the album's time and every other album |
| Playback.SavePlayerTimeIn | v1/player.js:414-419 | a negative time changes nothing; otherwise it fails exactly on a non-object item, reads back as stored (0 as none), keeps the album's index and every other album |
| Playback.TimeAfterIndex | v1/player.js:385-435 | saving a time after an index keeps the index; an index of 0 is found again, a time of 0 is not |
| Playback.RestoreIndexIn | v1/player.js:171-178 | status 1 exactly for a stored index in [0, length] (or when already 1); a switch exactly for an index in (0, length]; otherwise nothing changes |
| Playback.Step | v1/player.js:181-216 | only `loadedmetadata` with status 1 changes the status, to 2; it seeks exactly when the stored time is non-zero, the duration non-zero and the time within it, and then to that time |
| Playback.AtMostOneSeek | v1/player.js:201-216 | over any event sequence at most one seek, and none unless the status was 1; the status never returns to 1, and 2 stays 2 |
| Playback.FirstMetadataSeeks | v1/player.js:201-216 | after an index restore the first `loadedmetadata` seeks to the stored time, and no later event seeks again |
| Player.All | v1/player.js:101 | `Promise.all`: success exactly when every request succeeded, giving each listing's content in request order; otherwise the failure of a request all of whose predecessors succeeded |
| Player.Requests | v1/player.js:91-98 | one `getFileList(albumPath + path, password)` per track directory, in directory order |
| Player.PlayerElement.constructor | v1/player.js:32 | an element with its options, page, engine, collator and storage, no client and no restore status |
| Player.PlayerElement.RequestListings | v1/player.js:91-98 | the request loop issues exactly the requests `Requests` describes |
| Player.PlayerElement.GetTrackList | v1/player.js:89-126 | a failing request fails the list with its error; otherwise the list is the sorted files of the tagged concatenation |
| Player.PlayerElement.AudioItem | v1/player.js:284-293 | an item named by `AudioName`, with the artist option, the cover, and the file's download address under the album path and its directory |
| Player.PlayerElement.AudioList | v1/player.js:278-296 | one item per non-directory entry, in entry order, every item with the same artist and cover |
| Player.PlayerElement.ToAudioList | v1/player.js:278-296 | the push loop produces exactly `AudioList` |
| Player.PlayerElement.SaveRecord | v1/player.js:442-457 | the item becomes what `SaveRecordIn` gives, or stays as it was when that throws |
| Player.PlayerElement.QueryRecord | v1/player.js:464-480 | the record `QueryRecordIn` gives for the element's key |
| Player.PlayerElement.SavePlayerIndex | v1/player.js:385-390 | the item becomes what `SavePlayerIndexIn` gives, or stays as it was when that throws |
| Player.PlayerElement.QueryPlayerIndex | v1/player.js:398-407 | the index `QueryPlayerIndexIn` gives |
| Player.PlayerElement.SavePlayerTime | v1/player.js:414-419 | the item becomes what `SavePlayerTimeIn` gives, or stays as it was when that throws |
| Player.PlayerElement.QueryPlayerTime | v1/player.js:427-435 | the time `QueryPlayerTimeIn` gives |
| Player.PlayerElement.RestoreIndex | v1/player.js:171-178 | status and track switch as `RestoreIndexIn` gives; the client is untouched |
| Player.PlayerElement.OnPlay | v1/player.js:181-184 | the new status and item are the `Play` step of the old ones, without a seek |
| Player.PlayerElement.OnPause | v1/player.js:187-190 | the new status and item are the `Pause` step of the old ones, without a seek |
| Player.PlayerElement.OnTimeUpdate | v1/player.js:193-198 | the new status and item are the `TimeUpdate` step of the old ones, without a seek |
| Player.PlayerElement.OnLoadedMetadata | v1/player.js:201-216 | the new status and the seek are the `LoadedMetadata` step of the old state |
| Player.PlayerElement.Connect | v1/player.js:36-69 | a document being edited, or an empty album path: `Editing` or `InvalidAlbum`, with the client and the status unchanged; otherwise a fresh client for `getAlistUrl()` (one trailing "/" removed) with an empty token, then a failed load with the first failing request's error and the status unchanged, or the audio list of the track list followed by the index restore |

## Left out

- `login`, `getUserProfile` and `getFileInfo` are network calls outside the playlist logic. `getFileInfo` is declared twice, and the later one, which posts to `/api/fs/copy`, wins; so `getCoverUrl` calls the copy endpoint. The cover address is therefore a parameter of `Connect`.
- `fetch`, `response.json()`, `JSON.stringify` of the request body, and `JSON.parse` / `JSON.stringify` of the stored records are left out. The service is a pure function from address and options to a decoded response. The stored item is its parsed value.
- Stored text that does not parse makes `JSON.parse` throw (player.js lines 445 and 472). A stored `null` makes `key in records` throw in `saveRecord` (line 449) and `records[key]` throw in `queryRecord` (line 479). A record that is not an object, such as `5`, does not throw: `queryRecord` returns it, so it reads as no index and no time, and `saveRecord` replaces it by `Object.assign({}, 5, data)`, which holds only the new fields. None of these is modelled: a record here always has the two optional fields.
- The asynchronous orchestration is not modelled. `Promise.all` in `connectedCallback` waits for the assets, the listings and the cover. `Promise.all` in `getTrackList` rejects with the earliest rejection in time; the model takes the first failure in request order.
- Player.All: when several requests fail, the model does not say which failure comes first in time; it gives the first in request order.
- The element's attributes (`camelizeAttributes`, `deriveElement`), the CSS and script loading, the APlayer construction and its options, `appendChild`, `disconnectedCallback`, and the `debug` / `error` logging are DOM and library glue.
- `decodeURI` of the pathname is left out: the pathname is given decoded.
- The regular-expression engine (with flag `i`) is a parameter. So is `localeCompare('zh-CN', {numeric: true})`: a collator.
- Helper.Compare: a key counts as a number only when it is a non-empty string of decimal digits. `Number()` also accepts the empty string (as 0), surrounding whitespace, signs, decimals, hexadecimal and `Infinity`; such keys go to the collator in this model. The value of a digit string is exact here, while `Number()` gives a double: above 2^53 distinct keys can round to the same number (`Number("9007199254740993") === Number("9007199254740992")`), so the source compares them as equal where the model orders them, and the sortedness and stability lemmas speak of the exact values.
- Tracks.Sort: the library's stable sort is modelled by a stable insertion sort with the same comparator. Order is proved only when every key is numeric. With mixed keys the comparator need not be consistent, and the library's order is then not determined. Without a `trackOrder` pattern the key is the whole file name, such as "01.mp3", which is never a digit string. So in the default configuration every comparison goes to the collator, and `SortSorted` and `SortStable` say nothing about that case; only the permutation holds there.
- Config.RecordKey: the key keeps the service address as `getAlistUrl()` gives it. With one trailing "/" on the address, the same album gets a different key (`RecordKeyServiceSlash`). Only the album path is trimmed, and only when it has more than two characters, so "a" and "a/" are different keys too.
- Config.ParseCapture: `new RegExp(pattern, 'i')` throws a SyntaxError on an invalid pattern (player.js:350 and 370). The engine here always answers, with a match or none. In the source, an invalid `trackOrder` makes the sort comparator throw once two files are compared, which rejects `getTrackList`. An invalid `trackName` makes `toAudioList` throw as soon as one file is listed. Either way the whole load fails. In the model, `GetTrackList` succeeds and `Connect` yields `Loaded` whenever the listings succeed.
- Helper.Camelize: `toLowerCase` and `toUpperCase` are modelled on ASCII letters only. `\w` is ASCII word characters.
- Helper.Padding: a negative length makes `Array(length)` throw; the length is a natural number here. `Padding` also writes every integer in plain decimal, while JavaScript prints numbers of magnitude 1e21 and more in exponent form.
- Helper.RemoveBorder: it removes the leading keyword with the corrected `RemoveStart` of the finding below. As written, `removeBorder` composes the as-written `removeStart`. The two agree for keywords of at most one character, including the "/" every caller passes (`RemoveBorderAsWrittenOneChar`). For longer keywords the source loses more (`RemoveBorderAsWrittenExample`), and the middle property holds only for the modelled one.
- `getTrackList`'s doc comment (player.js:87) says it returns an empty array on failure. The code lets the rejection of `Promise.all` through instead, and the model follows the code: a failure is a `LoadFailed` outcome.
- The cover lookup is part of the same `Promise.all` in `connectedCallback` (player.js:57-68). A failing lookup therefore fails the whole load in the source, even when every listing succeeds. Because the cover is a parameter of `Connect`, the model always yields `Loaded` when the listings succeed. The lookup goes through the later `getFileInfo`, which posts to `/api/fs/copy`.
- Player.PlayerElement.OnLoadedMetadata: the duration is an integer number of seconds. `audio.duration` is a float (NaN before loading). Because the stored time is an integer, comparing it with the truncated duration gives the same answer.
- Player.PlayerElement.OnPause: the time is the integer `parseInt` makes of `audio.currentTime`; the float itself is not modelled. The same holds for `OnTimeUpdate`.
- Entries are values. The source mutates the listed objects in place (`item.path = ...`), and nothing else holds them, so no aliasing is lost.
- Player.PlayerElement.OnPlay: when `saveRecord` throws, the handler ends and the item is unchanged. The exception itself is not modelled. The same holds for `OnPause` and `OnTimeUpdate`.

## Findings

| source | as written | input that shows it | evidently intended | confidence | as-written member | corrected member |
|---|---|---|---|---|---|---|
| v1/helper.js:116 | on a match `removeStart` keeps `content.slice(keyword.length, content.length - keyword.length + 1)`, which also drops `keyword.length - 1` characters at the end | `removeStart("abcd", "ab")` gives `"c"` | `"cd"`: only the leading keyword removed (`slice(keyword.length)`) | high for keywords longer than one character; every caller passes "/", where both agree; not executed | Helper.RemoveStartAsWrittenExample | Helper.RemoveStart |
