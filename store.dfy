/**
 * The per-album playback records in `localStorage` under the item
 * "ysxs-player-records": one object mapping an album key to a record with an
 * optional track index and an optional play time. `saveRecord` reads the item,
 * merges the new fields into the album's record and writes the item back;
 * `queryRecord` reads the album's record or an empty one.
 *
 * The item is modelled by its parsed value. JSON text that does not parse,
 * and a stored `null`, are not part of this model.
 */
module Store {
  import opened Wrappers

  /** `LABEL + '-records'`. */
  const ItemName := "ysxs-player-records"

  /** One album's record; an absent field is `None`. */
  datatype Record = Record(index: Option<int>, time: Option<int>)

  const EmptyRecord := Record(None, None)

  /**
   * The parsed item: no item (or empty text), a value that is not an object
   * (a number, string or boolean), or the records object.
   */
  datatype Stored = Absent | NotAnObject | Records(records: map<string, Record>)

  /** `Object.assign({}, base, data)`: every field `data` has overrides the one of `base`. */
  function Merge(base: Record, data: Record): (r: Record)
    ensures data.index.Some? ==> r.index == data.index
    ensures data.index.None? ==> r.index == base.index
    ensures data.time.Some? ==> r.time == data.time
    ensures data.time.None? ==> r.time == base.time
  {
    Record(
      if data.index.Some? then data.index else base.index,
      if data.time.Some? then data.time else base.time)
  }

  /** Merging into an empty record gives the data; merging the same data twice is merging it once. */
  lemma MergeLaws(base: Record, data: Record, more: Record)
    ensures Merge(EmptyRecord, data) == data
    ensures Merge(Merge(base, data), data) == Merge(base, data)
    ensures Merge(Merge(base, data), more) == Merge(base, Merge(data, more))
  {
  }

  /**
   * `queryRecord`: the album's record when the item holds an object that has
   * one, and the empty record when there is no item, when the item is not an
   * object, or when the album has no record.
   */
  function QueryRecordIn(stored: Stored, key: string): (r: Record)
    ensures stored.Records? && key in stored.records ==> r == stored.records[key]
    ensures !(stored.Records? && key in stored.records) ==> r == EmptyRecord
  {
    match stored
    case Absent => EmptyRecord
    case NotAnObject => EmptyRecord
    case Records(records) => if key in records then records[key] else EmptyRecord
  }

  /**
   * `saveRecord`: the new item, or `None` when the stored value is not an
   * object and the `key in records` test throws. Afterwards the album's record
   * is the old one merged with `data`, and every other album's record is as it
   * was.
   */
  function SaveRecordIn(stored: Stored, key: string, data: Record): (r: Option<Stored>)
    ensures r.None? <==> stored.NotAnObject?
    ensures r.Some? ==> r.value.Records? && key in r.value.records
    ensures r.Some? ==> QueryRecordIn(r.value, key) == Merge(QueryRecordIn(stored, key), data)
    ensures r.Some? ==> forall other | other != key :: QueryRecordIn(r.value, other) == QueryRecordIn(stored, other)
    ensures r.Some? && stored.Records? ==> r.value.records.Keys == stored.records.Keys + {key}
  {
    match stored
    case NotAnObject => None
    case Absent => Some(Records(map[key := data]))
    case Records(records) =>
      if key in records then Some(Records(records[key := Merge(records[key], data)]))
      else Some(Records(records[key := data]))
  }

  /** `localStorage`, reduced to the one item the player uses. */
  class Storage {
    var item: Stored

    constructor(item: Stored)
      ensures this.item == item
    {
      this.item := item;
    }
  }
}
