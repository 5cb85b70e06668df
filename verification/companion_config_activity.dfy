/** `CompanionConfigActivity` on the phone: the one-shot bulk copy of the
    wearable mirror into the companion store, the registration order in
    `onCreate`, and the outbound emitter `onSharedPreferenceChanged`. */
module CompanionConfigActivity {
  import opened Wrappers
  import opened PrefCodec
  import opened SharedPreferencesUtil
  import opened SyncMessage
  import opened WearableConfigListenerService

  /** The activity's state: both stores, the data items handed to the Wear
      API so far, whether the change listener is registered on the companion
      store, and whether `finish()` has been called. */
  datatype Activity = Activity(prefs: CompanionPrefs, outbox: seq<DataItem>, listening: bool, finishing: bool)

  /** `onSharedPreferenceChanged(companionPrefs, key)`, with the clock reading
      `now` passed in. A key with no value changes nothing and sends nothing;
      otherwise the value is copied into the mirror and exactly one message,
      tagged with the companion path, is sent. */
  function OnSharedPreferenceChanged(a: Activity, key: string, now: int64): (r: Activity)
    ensures Lookup(a.prefs.companion, key).Null? ==> r == a
    ensures r.prefs.companion == a.prefs.companion
    ensures r.listening == a.listening && r.finishing == a.finishing
    ensures key in a.prefs.companion ==>
      && r.prefs.mirror == a.prefs.mirror[key := a.prefs.companion[key]]
      && r.outbox == a.outbox + [ChangeMessage(a.prefs.companion, key, now)]
  {
    var value := Lookup(a.prefs.companion, key);
    if value.Null? then a
    else
      LookupPutsBack(a.prefs.companion, key, NewEditor);
      var wearableEditor := SharedPreferencesUtil.PutObject(NewEditor, key, value).value;
      var mirror := Commit(a.prefs.mirror, wearableEditor);
      var item := SingleEntryMessage(ConfigUpdateCompanionPath, key, value, now);
      assert mirror == a.prefs.mirror[key := a.prefs.companion[key]];
      assert item == ChangeMessage(a.prefs.companion, key, now);
      a.(prefs := a.prefs.(mirror := mirror), outbox := a.outbox + [item])
  }

  /** The keys an Android commit reports to change listeners: the staged
      keys whose value differs from the one stored before. */
  function ChangedKeys(store: Store, editor: Editor): (keys: set<string>)
    ensures keys <= editor.pending.Keys
    ensures forall k :: k in editor.pending ==> (k in keys <==> k !in store || store[k] != editor.pending[k])
  {
    set k | k in editor.pending && (k !in store || store[k] != editor.pending[k])
  }

  /** The message `onSharedPreferenceChanged` sends for `key` when the
      companion store is `companion`: the stored value, boxed, as the single
      entry of the `"prefs"` map, tagged with the companion origin path. */
  function ChangeMessage(companion: Store, key: string, now: int64): DataItem
    requires key in companion
  {
    DataItem(Some(ConfigUpdateCompanionPath), SyncData(Some(map[key := Decode(companion[key])]), Some(now)))
  }

  /** The change message is the single-entry message both emitters build,
      for the stored value under `key`. */
  lemma ChangeMessageIsSingleEntry(companion: Store, key: string, now: int64)
    requires key in companion
    ensures ChangeMessage(companion, key, now) ==
      SingleEntryMessage(ConfigUpdateCompanionPath, key, Decode(companion[key]), now)
  {
  }

  /** The messages sent for the keys `keys`, notified in that order. */
  function ChangeMessages(companion: Store, keys: seq<string>, now: int64): (items: seq<DataItem>)
    requires forall k :: k in keys ==> k in companion
    ensures |items| == |keys|
  {
    if keys == [] then []
    else ChangeMessages(companion, keys[..|keys| - 1], now) + [ChangeMessage(companion, keys[|keys| - 1], now)]
  }

  /** The messages sent after `onSharedPreferenceChanged` was called for
      the keys `done`, in the order `sent`, starting from `a`. */
  ghost predicate NotifiedOutbox(a: Activity, r: Activity, sent: seq<string>, done: set<string>, now: int64)
    requires done <= a.prefs.companion.Keys
  {
    && (forall k :: k in sent <==> k in done)
    && |sent| == |done|
    && r.outbox == a.outbox + ChangeMessages(a.prefs.companion, sent, now)
  }

  /** The stores after `onSharedPreferenceChanged` was called for the keys
      `done`, starting from `a`: the mirror caught up on exactly those keys. */
  ghost predicate NotifiedStores(a: Activity, r: Activity, done: set<string>)
    requires done <= a.prefs.companion.Keys
  {
    && r.prefs.companion == a.prefs.companion
    && r.listening == a.listening && r.finishing == a.finishing
    && r.prefs.mirror.Keys == a.prefs.mirror.Keys + done
    && (forall k :: k in done ==> r.prefs.mirror[k] == a.prefs.companion[k])
    && (forall k :: k in a.prefs.mirror && k !in done ==> r.prefs.mirror[k] == a.prefs.mirror[k])
  }

  /** Both records of a dispatch that has notified the keys `done`. */
  ghost predicate Notified(a: Activity, r: Activity, sent: seq<string>, done: set<string>, now: int64)
    requires done <= a.prefs.companion.Keys
  {
    NotifiedOutbox(a, r, sent, done, now) && NotifiedStores(a, r, done)
  }

  /** One more notification, for a key not yet notified, extends the order
      by that key and appends its message. */
  lemma NotifyStepOutbox(a: Activity, r: Activity, sent: seq<string>, done: set<string>, key: string, now: int64)
    requires done <= a.prefs.companion.Keys && key in a.prefs.companion && key !in done
    requires r.prefs.companion == a.prefs.companion
    requires NotifiedOutbox(a, r, sent, done, now)
    ensures NotifiedOutbox(a, OnSharedPreferenceChanged(r, key, now), sent + [key], done + {key}, now)
  {
  }

  /** One more notification brings the mirror up to date on that key. */
  lemma NotifyStepStores(a: Activity, r: Activity, done: set<string>, key: string, now: int64)
    requires done <= a.prefs.companion.Keys && key in a.prefs.companion
    requires NotifiedStores(a, r, done)
    ensures NotifiedStores(a, OnSharedPreferenceChanged(r, key, now), done + {key})
  {
  }

  /** One listener call during dispatch: `onSharedPreferenceChanged` for
      `key`, a key not yet notified, extends both records by that key. */
  method NotifyOne(a: Activity, r: Activity, sent: seq<string>, done: set<string>, key: string, now: int64)
      returns (r': Activity)
    requires done <= a.prefs.companion.Keys && key in a.prefs.companion && key !in done
    ensures Notified(a, r, sent, done, now) ==> Notified(a, r', sent + [key], done + {key}, now)
  {
    if Notified(a, r, sent, done, now) {
      NotifyStepOutbox(a, r, sent, done, key, now);
      NotifyStepStores(a, r, done, key, now);
    }
    r' := OnSharedPreferenceChanged(r, key, now);
  }

  /** Android's listener dispatch after a commit: `onSharedPreferenceChanged`
      once for each key in `keys`, in no defined order; `sent` is that
      order. Every call reads the same clock reading `now`. */
  method NotifyListener(a: Activity, keys: set<string>, now: int64) returns (r: Activity, sent: seq<string>)
    requires keys <= a.prefs.companion.Keys
    ensures NotifiedOutbox(a, r, sent, keys, now)
    ensures NotifiedStores(a, r, keys)
  {
    r := a;
    sent := [];
    var done: set<string> := {};
    while done != keys
      invariant done <= keys
      invariant Notified(a, r, sent, done, now)
      decreases keys - done
    {
      var k :| k in keys && k !in done;
      r := NotifyOne(a, r, sent, done, k, now);
      sent := sent + [k];
      done := done + {k};
    }
  }

  /** `commit()` on an editor of the companion store. The store becomes
      store + staged writes. While the activity is registered as listener,
      each changed key is then reported to `onSharedPreferenceChanged`, each
      call seeing the committed store; `sent` is the notification order. */
  method CommitCompanion(a: Activity, editor: Editor, now: int64) returns (r: Activity, sent: seq<string>)
    ensures r.prefs.companion == Commit(a.prefs.companion, editor)
    ensures r.listening == a.listening && r.finishing == a.finishing
    ensures !a.listening ==> r.prefs.mirror == a.prefs.mirror && r.outbox == a.outbox && sent == []
    ensures a.listening ==>
      && (forall k :: k in sent <==> k in ChangedKeys(a.prefs.companion, editor))
      && |sent| == |ChangedKeys(a.prefs.companion, editor)|
      && (forall k :: k in sent ==> k in r.prefs.companion)
      && r.outbox == a.outbox + ChangeMessages(r.prefs.companion, sent, now)
      && r.prefs.mirror.Keys == a.prefs.mirror.Keys + ChangedKeys(a.prefs.companion, editor)
      && (forall k :: k in ChangedKeys(a.prefs.companion, editor) ==> r.prefs.mirror[k] == editor.pending[k])
      && (forall k :: k in a.prefs.mirror && k !in ChangedKeys(a.prefs.companion, editor) ==>
            r.prefs.mirror[k] == a.prefs.mirror[k])
  {
    var committed := a.(prefs := a.prefs.(companion := Commit(a.prefs.companion, editor)));
    if a.listening {
      r, sent := NotifyListener(committed, ChangedKeys(a.prefs.companion, editor), now);
    } else {
      r, sent := committed, [];
    }
  }

  /** The editor `synchronizeWearablePreferences` fills: every mirror entry,
      put in the mirror's unspecified order. Mirror values are always of a
      supported type, so the staged writes are exactly the mirror. */
  method CopyMirror(mirror: Store) returns (editor: Editor)
    ensures editor.pending == mirror
  {
    editor := NewEditor;
    var remaining := mirror.Keys;
    while remaining != {}
      invariant remaining <= mirror.Keys
      invariant editor.pending == mirror - remaining
      decreases remaining
    {
      var k :| k in remaining;
      LookupPutsBack(mirror, k, editor);
      CopyStep(mirror, remaining, k);
      editor := SharedPreferencesUtil.PutObject(editor, k, Lookup(mirror, k)).value;
      remaining := remaining - {k};
    }
    assert mirror - {} == mirror;
  }

  /** Copying one more key moves it from the remaining keys into the copy. */
  lemma CopyStep(mirror: Store, remaining: set<string>, k: string)
    requires remaining <= mirror.Keys && k in remaining
    ensures (mirror - remaining)[k := mirror[k]] == mirror - (remaining - {k})
  {
  }

  /** `synchronizeWearablePreferences`: copy the mirror into one editor of
      the companion store and commit. Mirror keys overwrite; companion-only
      keys survive. Run while the listener is not registered, it sends
      nothing; run while it is, every copied key whose value differed would
      be sent back to the wearable, one message each. */
  method SynchronizeWearablePreferences(a: Activity, now: int64) returns (r: Activity)
    ensures r.prefs.companion.Keys == a.prefs.companion.Keys + a.prefs.mirror.Keys
    ensures forall k :: k in a.prefs.mirror ==> r.prefs.companion[k] == a.prefs.mirror[k]
    ensures forall k :: k in a.prefs.companion && k !in a.prefs.mirror ==> r.prefs.companion[k] == a.prefs.companion[k]
    ensures r.prefs.mirror == a.prefs.mirror
    ensures r.listening == a.listening && r.finishing == a.finishing
    ensures !a.listening ==> r.outbox == a.outbox
    ensures a.listening ==>
      && |r.outbox| == |a.outbox| + |ChangedKeys(a.prefs.companion, Editor(a.prefs.mirror))|
      && r.outbox[..|a.outbox|] == a.outbox
      && (forall item :: item in r.outbox[|a.outbox|..] ==> item.uri == Some(ConfigUpdateCompanionPath))
  {
    var mirror := a.prefs.mirror;
    var editor := CopyMirror(mirror);
    var sent;
    r, sent := CommitCompanion(a, editor, now);
    CommitOverwrites(a.prefs.companion, mirror, r.prefs.companion);
    if a.listening {
      CompanionSuffix(a.outbox, r.prefs.companion, sent, now);
      MirrorCaughtUp(mirror, r.prefs.mirror, ChangedKeys(a.prefs.companion, editor));
    }
  }

  /** Committing a copy of `mirror` over `companion`: mirror keys overwrite,
      companion-only keys survive. */
  lemma CommitOverwrites(companion: Store, mirror: Store, r: Store)
    requires r == Commit(companion, Editor(mirror))
    ensures r.Keys == companion.Keys + mirror.Keys
    ensures forall k :: k in mirror ==> r[k] == mirror[k]
    ensures forall k :: k in companion && k !in mirror ==> r[k] == companion[k]
  {
  }

  /** A mirror that catches up on keys whose new value it already holds is
      the mirror it was. */
  lemma MirrorCaughtUp(mirror: Store, r: Store, changed: set<string>)
    requires changed <= mirror.Keys
    requires r.Keys == mirror.Keys + changed
    requires forall k :: k in changed ==> r[k] == mirror[k]
    requires forall k :: k in mirror && k !in changed ==> r[k] == mirror[k]
    ensures r == mirror
  {
  }

  /** Every change message carries the companion origin path. */
  lemma {:induction false} AllFromCompanion(companion: Store, keys: seq<string>, now: int64)
    requires forall k :: k in keys ==> k in companion
    ensures forall item :: item in ChangeMessages(companion, keys, now) ==> item.uri == Some(ConfigUpdateCompanionPath)
    decreases |keys|
  {
    if keys != [] {
      AllFromCompanion(companion, keys[..|keys| - 1], now);
    }
  }

  /** An outbox extended by change messages keeps its prefix, grows by one
      item per key, and every new item carries the companion origin path. */
  lemma CompanionSuffix(prefix: seq<DataItem>, companion: Store, keys: seq<string>, now: int64)
    requires forall k :: k in keys ==> k in companion
    ensures var outbox := prefix + ChangeMessages(companion, keys, now);
      && |outbox| == |prefix| + |keys|
      && outbox[..|prefix|] == prefix
      && (forall item :: item in outbox[|prefix|..] ==> item.uri == Some(ConfigUpdateCompanionPath))
  {
    var outbox := prefix + ChangeMessages(companion, keys, now);
    assert outbox[|prefix|..] == ChangeMessages(companion, keys, now);
    AllFromCompanion(companion, keys, now);
  }

  /** `onCreate` on a fresh activity: the bulk copy runs first, while no
      change listener is registered, so it sends nothing. The listener is
      registered only when the preference screen resource was found;
      otherwise the activity finishes. */
  method OnCreate(prefs: CompanionPrefs, preferenceScreenFound: bool, now: int64) returns (a: Activity)
    ensures a.outbox == []
    ensures a.prefs.mirror == prefs.mirror
    ensures a.prefs.companion.Keys == prefs.companion.Keys + prefs.mirror.Keys
    ensures forall k :: k in prefs.mirror ==> a.prefs.companion[k] == prefs.mirror[k]
    ensures forall k :: k in prefs.companion && k !in prefs.mirror ==> a.prefs.companion[k] == prefs.companion[k]
    ensures a.listening <==> preferenceScreenFound
    ensures a.finishing <==> !preferenceScreenFound
  {
    a := Activity(prefs, [], false, false);
    a := SynchronizeWearablePreferences(a, now);
    a := a.(listening := preferenceScreenFound, finishing := !preferenceScreenFound);
  }

  /** Why the order in `onCreate` matters: had the listener been registered
      before the bulk copy, every mirror key whose value the companion store
      did not already hold would have been sent back to the wearable. Such a
      key exists exactly when the mirror is not already contained in the
      companion store. */
  lemma ChangedKeysOfCopy(prefs: CompanionPrefs)
    ensures ChangedKeys(prefs.companion, Editor(prefs.mirror)) == {} <==>
      forall k :: k in prefs.mirror ==> k in prefs.companion && prefs.companion[k] == prefs.mirror[k]
  {
  }

  /** After a change is handled, companion and mirror agree on the changed key. */
  lemma ChangeAlignsMirror(a: Activity, key: string, now: int64)
    requires key in a.prefs.companion
    ensures Lookup(OnSharedPreferenceChanged(a, key, now).prefs.mirror, key) == Lookup(a.prefs.companion, key)
    ensures Lookup(OnSharedPreferenceChanged(a, key, now).prefs.mirror, key)
         == Lookup(OnSharedPreferenceChanged(a, key, now).prefs.companion, key)
  {
  }

  /** Handling the same change twice sends two messages, which differ
      exactly when the two clock readings differ. */
  lemma RepeatedChangeSendsAgain(a: Activity, key: string, t1: int64, t2: int64)
    requires key in a.prefs.companion
    ensures var b := OnSharedPreferenceChanged(OnSharedPreferenceChanged(a, key, t1), key, t2);
      && |b.outbox| == |a.outbox| + 2
      && b.prefs == OnSharedPreferenceChanged(a, key, t1).prefs
      && (b.outbox[|a.outbox|] == b.outbox[|a.outbox| + 1] <==> t1 == t2)
  {
    var a1 := OnSharedPreferenceChanged(a, key, t1);
    var b := OnSharedPreferenceChanged(a1, key, t2);
    assert b.outbox[|a.outbox|] == a1.outbox[|a.outbox|];
  }
}
