/** The shape of a sync message as it crosses the Wear data layer, and the
    single-entry message both emitters build. */
module SyncMessage {
  import opened Wrappers
  import opened PrefCodec
  import opened DataMapUtil

  /** The outer data map of a sync message: the nested map under `"prefs"`
      and the uniqueness long under `"timestamp"`. `None` is a key that is
      absent, for which the typed getters return null. */
  datatype SyncData = SyncData(prefs: Option<DataMap>, timestamp: Option<int64>)

  /** A data item: the path of its URI (`None` for a null URI) and its data. */
  datatype DataItem = DataItem(uri: Option<string>, data: SyncData)

  /** A data event as delivered to a listener; the item may be null. */
  datatype DataEvent = DataEvent(item: Option<DataItem>)

  /** The message both emitters send: `value` put under `key` into a fresh
      `"prefs"` map, the clock reading `now` as timestamp, tagged with the
      sender's origin `path`. */
  function SingleEntryMessage(path: string, key: string, value: Object, now: int64): (item: DataItem)
    requires Supported(value)
    ensures item.uri == Some(path)
    ensures item.data.prefs == Some(map[key := value])
    ensures item.data.timestamp == Some(now)
  {
    var prefsDataMap := DataMapUtil.PutObject(map[], key, value).value;
    assert prefsDataMap == map[key := value];
    DataItem(Some(path), SyncData(Some(prefsDataMap), Some(now)))
  }
}
