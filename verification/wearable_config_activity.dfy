/** `WearableConfigActivity` on the watch: `onConfigCompleted` writes a
    configured value locally and sends it to the companion. */
module WearableConfigActivity {
  import opened Wrappers
  import opened PrefCodec
  import opened SharedPreferencesUtil
  import opened DataMapUtil
  import opened SyncMessage

  /** The wearable side: its default preference store, the data items handed
      to the Wear API so far, and whether `finish()` has been called. */
  datatype Wearable = Wearable(store: Store, outbox: seq<DataItem>, finishing: bool)

  /** `onConfigCompleted(key, value, finish)`, with the clock reading `now`
      passed in. An unsupported value throws at the local `putObject`, before
      `commit` and before anything is sent. Otherwise the value is committed
      locally, exactly one message tagged with the wearable path is sent, and
      the activity finishes when `finish` is set. */
  function OnConfigCompleted(w: Wearable, key: string, value: Object, finish: bool, now: int64): (r: Result<Wearable, Error>)
    ensures r.Success? <==> Supported(value)
    ensures r.Failure? ==> r.error == (if value.Null? then NullPointer else IllegalArgument(ClassName(value)))
    ensures r.Success? ==>
      && r.value.store.Keys == w.store.Keys + {key}
      && Lookup(r.value.store, key) == value
      && (forall k :: k in w.store && k != key ==> r.value.store[k] == w.store[k])
      && |r.value.outbox| == |w.outbox| + 1
      && r.value.outbox[..|w.outbox|] == w.outbox
      && r.value.outbox[|w.outbox|].uri == Some(ConfigUpdateWearablePath)
      && r.value.outbox[|w.outbox|].data == SyncData(Some(map[key := value]), Some(now))
      && (r.value.finishing <==> w.finishing || finish)
  {
    match SharedPreferencesUtil.PutObject(NewEditor, key, value)
    case Failure(e) => Failure(e)
    case Success(editor) =>
      var item := SingleEntryMessage(ConfigUpdateWearablePath, key, value, now);
      Success(Wearable(Commit(w.store, editor), w.outbox + [item], w.finishing || finish))
  }

  /** Configuring the same value twice still sends two messages, which differ
      exactly when the two clock readings differ; the store ends as after
      the first. */
  lemma RepeatedConfigSendsAgain(w: Wearable, key: string, value: Object, t1: int64, t2: int64)
    requires Supported(value)
    ensures OnConfigCompleted(w, key, value, false, t1).Success?
    ensures var w1 := OnConfigCompleted(w, key, value, false, t1).value;
      && OnConfigCompleted(w1, key, value, false, t2).Success?
      && var w2 := OnConfigCompleted(w1, key, value, false, t2).value;
      && |w2.outbox| == |w.outbox| + 2
      && w2.store == w1.store
      && (w2.outbox[|w.outbox|] == w2.outbox[|w.outbox| + 1] <==> t1 == t2)
  {
    var w1 := OnConfigCompleted(w, key, value, false, t1).value;
    var w2 := OnConfigCompleted(w1, key, value, false, t2).value;
    assert w2.outbox[|w.outbox|] == w1.outbox[|w.outbox|];
    assert key in w1.store;
    var v := w1.store[key];
    forall k | k in w2.store
      ensures k in w1.store && w2.store[k] == w1.store[k]
    {
      if k == key {
        DecodeInjective(w2.store[k], v);
      }
    }
    assert w2.store == w1.store;
  }
}
