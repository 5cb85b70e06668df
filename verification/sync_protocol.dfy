/** The two devices put together: what an emitter sends, once delivered as
    a data event, does to each listener. */
module SyncProtocol {
  import opened Wrappers
  import opened PrefCodec
  import opened SharedPreferencesUtil
  import opened DataMapUtil
  import opened SyncMessage
  import opened ConfigListener
  import CompanionConfigActivity
  import WearableConfigActivity
  import MuseumCompanionConfigListenerService
  import SampleCompanionConfigListenerService
  import WearableConfigListenerService

  /** A sent data item arriving at a listener as a data event. */
  function Deliver(item: DataItem): DataEvent {
    DataEvent(Some(item))
  }

  /** A companion change, delivered to either wearable listener, gives the
      wearable store the companion's value for that key and changes no other key. */
  lemma CompanionChangeReachesWearable(a: CompanionConfigActivity.Activity, key: string, now: int64,
                                       store: Store, museum: bool)
    requires key in a.prefs.companion
    ensures var sent := CompanionConfigActivity.OnSharedPreferenceChanged(a, key, now).outbox;
      var cfg := if museum then MuseumCompanionConfigListenerService.Config else SampleCompanionConfigListenerService.Config;
      var out := Replay(cfg, store, [Deliver(sent[|sent| - 1])]);
      && out.Completed?
      && Lookup(out.store, key) == Lookup(a.prefs.companion, key)
      && (forall k :: k != key ==> Lookup(out.store, k) == Lookup(store, k))
  {
    var sent := CompanionConfigActivity.OnSharedPreferenceChanged(a, key, now).outbox;
    var cfg := if museum then MuseumCompanionConfigListenerService.Config else SampleCompanionConfigListenerService.Config;
    var events := [Deliver(sent[|sent| - 1])];
    var data := sent[|sent| - 1].data;
    assert Classify(cfg, events[0]) == Apply(data);
    var next := ApplyPayload(store, data).value;
    assert ReplayFrom(cfg, next, events, 1) == Completed(next);
  }

  /** A wearable configuration, delivered to the companion's listener, lands
      in the mirror under its key; the companion store is not touched. */
  lemma WearableChangeReachesMirror(w: WearableConfigActivity.Wearable, key: string, value: Object, finish: bool,
                                    now: int64, mirror: Store)
    requires Supported(value)
    ensures var r := WearableConfigActivity.OnConfigCompleted(w, key, value, finish, now);
      && r.Success?
      && var sent := r.value.outbox;
      var out := Replay(WearableConfigListenerService.Config, mirror, [Deliver(sent[|sent| - 1])]);
      && out.Completed?
      && Lookup(out.store, key) == value
      && (forall k :: k != key ==> Lookup(out.store, k) == Lookup(mirror, k))
  {
    var sent := WearableConfigActivity.OnConfigCompleted(w, key, value, finish, now).value.outbox;
    var cfg := WearableConfigListenerService.Config;
    var events := [Deliver(sent[|sent| - 1])];
    var data := sent[|sent| - 1].data;
    assert Classify(cfg, events[0]) == Apply(data);
    var next := ApplyPayload(mirror, data).value;
    assert ReplayFrom(cfg, next, events, 1) == Completed(next);
  }

  /** No echo: a device's own messages, if delivered back to its own
      listener, change nothing there. */
  lemma OwnMessagesAreIgnored(a: CompanionConfigActivity.Activity, key: string, w: WearableConfigActivity.Wearable,
                              value: Object, now: int64, mirror: Store, store: Store)
    requires key in a.prefs.companion
    requires Supported(value)
    ensures var sent := CompanionConfigActivity.OnSharedPreferenceChanged(a, key, now).outbox;
      Replay(WearableConfigListenerService.Config, mirror, [Deliver(sent[|sent| - 1])]) == Completed(mirror)
    ensures WearableConfigActivity.OnConfigCompleted(w, key, value, false, now).Success?
    ensures var sent := WearableConfigActivity.OnConfigCompleted(w, key, value, false, now).value.outbox;
      && Replay(MuseumCompanionConfigListenerService.Config, store, [Deliver(sent[|sent| - 1])]) == Completed(store)
      && Replay(SampleCompanionConfigListenerService.Config, store, [Deliver(sent[|sent| - 1])]) == Completed(store)
  {
    OriginPathsDistinct();
    var sent := CompanionConfigActivity.OnSharedPreferenceChanged(a, key, now).outbox;
    WearableConfigListenerService.IgnoresCompanionOrigin(mirror, [Deliver(sent[|sent| - 1])]);
    var sent2 := WearableConfigActivity.OnConfigCompleted(w, key, value, false, now).value.outbox;
    MuseumCompanionConfigListenerService.IgnoresWearableOriginAndNulls(store, [Deliver(sent2[|sent2| - 1])]);
    SampleCompanionConfigListenerService.IgnoresWearableOrigin(store, [Deliver(sent2[|sent2| - 1])]);
  }
}
