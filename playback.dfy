/**
 * The playback memory of the player: saving and querying the track index and
 * the play time of the current album, and the `restoreStatus` machine of
 * `initPlayer` that restores the index once and then the time once.
 *
 * Everything here is a function of the stored item; the player element's
 * methods are proved against these functions. A play time is the integer
 * `parseInt` makes of the media element's current time, and a duration is an
 * integer number of seconds.
 */
module Playback {
  import opened Wrappers
  import opened Store

  /** The record `savePlayerIndex` merges in. */
  function IndexRecord(index: int): Record { Record(Some(index), None) }

  /** The record `savePlayerTime` merges in. */
  function TimeRecord(time: int): Record { Record(None, Some(time)) }

  /** `saveRecord` as an event handler sees it: when it throws, the item stays as it was. */
  function Commit(saved: Option<Stored>, stored: Stored): Stored
  {
    if saved.Some? then saved.value else stored
  }

  /** `queryPlayerIndex`: the stored index, a stored 0 included. */
  function QueryPlayerIndexIn(stored: Stored, key: string): (r: Option<int>)
    ensures r == QueryRecordIn(stored, key).index
    ensures stored.Absent? || stored.NotAnObject? ==> r.None?
  {
    QueryRecordIn(stored, key).index
  }

  /** `queryPlayerTime`: the stored time, where a stored 0 counts as no time. */
  function QueryPlayerTimeIn(stored: Stored, key: string): (r: Option<int>)
    ensures r.Some? ==> r.value != 0 && QueryRecordIn(stored, key).time == r
    ensures r.None? <==> QueryRecordIn(stored, key).time in {None, Some(0)}
  {
    var time := QueryRecordIn(stored, key).time;
    if time.Some? && time.value != 0 then time else None
  }

  /**
   * `savePlayerIndex`: a negative index is not stored. A stored index reads
   * back as it is, the album's time is kept, and no other album changes.
   */
  function SavePlayerIndexIn(stored: Stored, key: string, index: int): (r: Option<Stored>)
    ensures index < 0 ==> r == Some(stored)
    ensures index >= 0 ==> (r.None? <==> stored.NotAnObject?)
    ensures index >= 0 && r.Some? ==>
      && QueryPlayerIndexIn(r.value, key) == Some(index)
      && QueryRecordIn(r.value, key).time == QueryRecordIn(stored, key).time
    ensures r.Some? ==> forall other | other != key :: QueryRecordIn(r.value, other) == QueryRecordIn(stored, other)
  {
    if index >= 0 then SaveRecordIn(stored, key, IndexRecord(index)) else Some(stored)
  }

  /**
   * `savePlayerTime`: a negative time is not stored. A stored time reads back
   * as it is unless it is 0, the album's index is kept, and no other album
   * changes.
   */
  function SavePlayerTimeIn(stored: Stored, key: string, time: int): (r: Option<Stored>)
    ensures time < 0 ==> r == Some(stored)
    ensures time >= 0 ==> (r.None? <==> stored.NotAnObject?)
    ensures time >= 0 && r.Some? ==>
      && QueryPlayerTimeIn(r.value, key) == (if time == 0 then None else Some(time))
      && QueryPlayerIndexIn(r.value, key) == QueryPlayerIndexIn(stored, key)
    ensures r.Some? ==> forall other | other != key :: QueryRecordIn(r.value, other) == QueryRecordIn(stored, other)
  {
    if time >= 0 then SaveRecordIn(stored, key, TimeRecord(time)) else Some(stored)
  }

  /**
   * Saving a time after an index keeps the index: an index of 0 is found
   * again, while a time of 0 is not.
   */
  lemma TimeAfterIndex(stored: Stored, key: string, index: nat, time: nat)
    requires !stored.NotAnObject?
    ensures var s1 := SavePlayerIndexIn(stored, key, index);
      && s1.Some?
      && var s2 := SavePlayerTimeIn(s1.value, key, time);
      && s2.Some?
      && QueryPlayerIndexIn(s2.value, key) == Some(index)
      && QueryPlayerTimeIn(s2.value, key) == (if time == 0 then None else Some(time))
  {
  }

  // ------------------------------------------------------ restore machine

  /** `restoreStatus`: never set, set to 1 once the index is restored, 2 once the time is. */
  datatype RestoreStatus = Unset | IndexRestored | TimeRestored

  /** An event of the audio player, with the values its handler reads. */
  datatype Event =
    | Play(index: int)
    | Pause(time: int)
    | TimeUpdate(paused: bool, time: int)
    | LoadedMetadata(duration: int)

  datatype Session = Session(status: RestoreStatus, stored: Stored)

  /**
   * The `queryPlayerIndex` callback of `initPlayer`: a stored index in
   * `[0, length]` (the upper bound included, as written) sets the status to 1
   * and switches to that track when it is not the first one; any other index,
   * or none, leaves both alone.
   */
  function RestoreIndexIn(stored: Stored, key: string, length: nat, status: RestoreStatus): (r: (RestoreStatus, Option<int>))
    ensures var index := QueryPlayerIndexIn(stored, key);
      && (r.0 == IndexRestored <==> (index.Some? && 0 <= index.value <= length) || status == IndexRestored)
      && (r.1.Some? <==> index.Some? && 0 < index.value <= length)
      && (r.1.Some? ==> r.1 == index)
      && (r.0 != status ==> r.0 == IndexRestored)
  {
    var index := QueryPlayerIndexIn(stored, key);
    if index.Some? && 0 <= index.value <= length then
      (IndexRestored, if index.value > 0 then index else None)
    else
      (status, None)
  }

  /**
   * One event handler: `play` saves the index, `pause` and an unpaused
   * `timeupdate` save the time, and `loadedmetadata` with status 1 seeks to
   * the stored time when time and duration are non-zero and the time is
   * within the duration, then sets the status to 2. The result is the new
   * session and the seek, if any.
   */
  function Step(key: string, s: Session, e: Event): (r: (Session, Option<int>))
    ensures r.0.status == (if s.status == IndexRestored && e.LoadedMetadata? then TimeRestored else s.status)
    ensures e.LoadedMetadata? ==> r.0.stored == s.stored
    ensures r.1.Some? <==>
      && s.status == IndexRestored && e.LoadedMetadata? && e.duration != 0
      && QueryPlayerTimeIn(s.stored, key).Some? && QueryPlayerTimeIn(s.stored, key).value <= e.duration
    ensures r.1.Some? ==> r.1 == QueryPlayerTimeIn(s.stored, key) && r.1.value != 0
  {
    match e
    case Play(index) =>
      (s.(stored := Commit(SavePlayerIndexIn(s.stored, key, index), s.stored)), None)
    case Pause(time) =>
      (s.(stored := Commit(SavePlayerTimeIn(s.stored, key, time), s.stored)), None)
    case TimeUpdate(paused, time) =>
      if !paused then (s.(stored := Commit(SavePlayerTimeIn(s.stored, key, time), s.stored)), None)
      else (s, None)
    case LoadedMetadata(duration) =>
      if s.status == IndexRestored then
        var time := QueryPlayerTimeIn(s.stored, key);
        var seek := if time.Some? && duration != 0 && time.value <= duration then time else None;
        (s.(status := TimeRestored), seek)
      else
        (s, None)
  }

  /** A sequence of events: the final session and the number of seeks. */
  function Run(key: string, s: Session, events: seq<Event>): (Session, nat)
    decreases |events|
  {
    if events == [] then (s, 0)
    else
      var (next, seek) := Step(key, s, events[0]);
      var (last, seeks) := Run(key, next, events[1..]);
      (last, seeks + if seek.Some? then 1 else 0)
  }

  /**
   * Whatever the events, the time is restored at most once, and only from a
   * session whose index was restored; the status never goes back to 1.
   */
  lemma {:induction false} AtMostOneSeek(key: string, s: Session, events: seq<Event>)
    ensures Run(key, s, events).1 <= (if s.status == IndexRestored then 1 else 0)
    ensures Run(key, s, events).0.status == IndexRestored ==> s.status == IndexRestored
    ensures s.status == TimeRestored ==> Run(key, s, events).0.status == TimeRestored
    decreases |events|
  {
    if events != [] {
      var (next, seek) := Step(key, s, events[0]);
      AtMostOneSeek(key, next, events[1..]);
    }
  }

  /**
   * After an index restore, the first `loadedmetadata` seeks to a stored
   * non-zero time that fits the duration, and later ones never seek again.
   */
  lemma {:induction false} FirstMetadataSeeks(key: string, s: Session, duration: int, events: seq<Event>)
    requires s.status == IndexRestored
    requires QueryPlayerTimeIn(s.stored, key).Some? && duration != 0
    requires QueryPlayerTimeIn(s.stored, key).value <= duration
    ensures Step(key, s, LoadedMetadata(duration)) == (s.(status := TimeRestored), QueryPlayerTimeIn(s.stored, key))
    ensures Run(key, s.(status := TimeRestored), events).1 == 0
  {
    AtMostOneSeek(key, s.(status := TimeRestored), events);
  }
}
