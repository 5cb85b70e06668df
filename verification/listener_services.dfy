/** `CompanionConfigListenerService` of the museum wearable module: accepts
    only companion-origin events and skips events whose data item or URI is
    null. */
module MuseumCompanionConfigListenerService {
  import opened Wrappers
  import opened PrefCodec
  import opened SharedPreferencesUtil
  import opened SyncMessage
  import opened ConfigListener

  const Config: ListenerConfig := ListenerConfig(ConfigUpdateCompanionPath, true)

  /** `onDataChanged`, writing into the wearable's default preferences. Thanks
      to the null guard, an exception can only come from a companion-origin
      event's payload. */
  method OnDataChanged(store: Store, events: seq<DataEvent>) returns (out: Store, err: Option<Error>)
    ensures err.None? <==> Replay(Config, store, events).Completed?
    ensures out == Replay(Config, store, events).store
    ensures err.Some? ==> exists j :: 0 <= j < |events| && events[j].item.Some? &&
                                      events[j].item.value.uri == Some(ConfigUpdateCompanionPath)
    ensures err.Some? ==>
      var ev := events[Replay(Config, store, events).at];
      ev.item.Some? && ev.item.value.uri == Some(ConfigUpdateCompanionPath) &&
      PayloadThrows(ev.item.value.data, err.value)
  {
    out, err := ConfigListener.OnDataChanged(Config, store, events);
    if err.Some? {
      var j := Replay(Config, store, events).at;
      assert Classify(Config, events[j]).Apply?;
    }
  }

  /** Echo avoidance: wearable-origin events, and events with a null data
      item or URI, leave the store as it was. */
  lemma IgnoresWearableOriginAndNulls(store: Store, events: seq<DataEvent>)
    requires forall j :: 0 <= j < |events| ==>
      events[j].item.None? || events[j].item.value.uri != Some(ConfigUpdateCompanionPath)
    ensures Replay(Config, store, events) == Completed(store)
  {
    SkippedEventsChangeNothing(Config, store, events, 0);
  }
}

/** `CompanionConfigListenerService` of the plain sample wearable module:
    the same path filter, but without the null guard. */
module SampleCompanionConfigListenerService {
  import opened Wrappers
  import opened PrefCodec
  import opened SharedPreferencesUtil
  import opened SyncMessage
  import opened ConfigListener

  const Config: ListenerConfig := ListenerConfig(ConfigUpdateCompanionPath, false)

  /** `onDataChanged`, writing into the wearable's default preferences. A
      first event with a null data item or URI throws a NullPointerException
      before anything is committed. */
  method OnDataChanged(store: Store, events: seq<DataEvent>) returns (out: Store, err: Option<Error>)
    ensures err.None? <==> Replay(Config, store, events).Completed?
    ensures out == Replay(Config, store, events).store
    ensures |events| > 0 && (events[0].item.None? || events[0].item.value.uri.None?) ==>
      out == store && err == Some(NullPointer)
    ensures err.Some? ==>
      var ev := events[Replay(Config, store, events).at];
      if ev.item.None? || ev.item.value.uri.None? then err == Some(NullPointer)
      else ev.item.value.uri == Some(ConfigUpdateCompanionPath) && PayloadThrows(ev.item.value.data, err.value)
  {
    out, err := ConfigListener.OnDataChanged(Config, store, events);
  }

  /** Echo avoidance: events carrying a wearable-origin (or any other
      non-companion) path leave the store as it was. */
  lemma IgnoresWearableOrigin(store: Store, events: seq<DataEvent>)
    requires forall j :: 0 <= j < |events| ==>
      events[j].item.Some? && events[j].item.value.uri.Some? &&
      events[j].item.value.uri.value != ConfigUpdateCompanionPath
    ensures Replay(Config, store, events) == Completed(store)
  {
    SkippedEventsChangeNothing(Config, store, events, 0);
  }
}

/** `WearableConfigListenerService` on the companion: accepts only
    wearable-origin events and writes them into the `"wearable_config"`
    mirror of the wearable's preferences, never into the companion's own
    `"companion_config"` store. */
module WearableConfigListenerService {
  import opened Wrappers
  import opened PrefCodec
  import opened SharedPreferencesUtil
  import opened SyncMessage
  import opened ConfigListener

  /** The two preference stores of the companion app: its own
      `"companion_config"` store and the `"wearable_config"` mirror of the
      wearable preferences. */
  datatype CompanionPrefs = CompanionPrefs(companion: Store, mirror: Store)

  const Config: ListenerConfig := ListenerConfig(ConfigUpdateWearablePath, false)

  /** `onDataChanged`: the mirror receives the accepted payloads, the
      companion store is untouched. */
  method OnDataChanged(prefs: CompanionPrefs, events: seq<DataEvent>) returns (r: CompanionPrefs, err: Option<Error>)
    ensures r.companion == prefs.companion
    ensures r.mirror == Replay(Config, prefs.mirror, events).store
    ensures err.None? <==> Replay(Config, prefs.mirror, events).Completed?
    ensures err.Some? ==>
      var ev := events[Replay(Config, prefs.mirror, events).at];
      if ev.item.None? || ev.item.value.uri.None? then err == Some(NullPointer)
      else ev.item.value.uri == Some(ConfigUpdateWearablePath) && PayloadThrows(ev.item.value.data, err.value)
  {
    var mirror;
    mirror, err := ConfigListener.OnDataChanged(Config, prefs.mirror, events);
    r := prefs.(mirror := mirror);
  }

  /** Echo avoidance: companion-origin events leave the mirror as it was. */
  lemma IgnoresCompanionOrigin(mirror: Store, events: seq<DataEvent>)
    requires forall j :: 0 <= j < |events| ==>
      events[j].item.Some? && events[j].item.value.uri == Some(ConfigUpdateCompanionPath)
    ensures Replay(Config, mirror, events) == Completed(mirror)
  {
    OriginPathsDistinct();
    SkippedEventsChangeNothing(Config, mirror, events, 0);
  }
}
