# Clockwise samples: preference sync and museum palette, in Dafny

This project models the watch ↔ phone preference synchronisation of the
ustwo Clockwise sample watch faces, and the theme/mode palette selection of
the museum watch face. It proves properties of the model.

The sync protocol:

- **Codec.** `SharedPreferencesUtil.putObject` writes into a preferences
  editor and `DataMapUtil.putObject` writes into a Wear data map. Both accept
  only Integer, String and Boolean values. The Java `Object` argument is the
  datatype `PrefCodec.Object`. Its `Other` variant stands for every other
  class, by a name that is none of the boxed types it distinguishes. Stored
  values are the tagged variant
  `PrefValue = IntV | StrV | BoolV`.
- **Lookup.** `getObject` scans a store's entry set for a key. It returns
  the boxed value, or null when the key is absent.
- **Listeners.** Three listener services take a batch of data events. Each
  applies a payload only when the event's path is the other device's origin
  path. This is the echo-avoidance rule. The two wearable copies of
  `CompanionConfigListenerService` accept `/config_update/companion`. Only
  the museum copy skips events whose data item or URI is null. The
  companion's `WearableConfigListenerService` accepts
  `/config_update/wearable` and writes only into the `"wearable_config"`
  mirror store.
- **Emitters.** `CompanionConfigActivity.onSharedPreferenceChanged` and
  `WearableConfigActivity.onConfigCompleted` write locally first. Each then
  sends one single-entry `"prefs"` map with a `"timestamp"`, tagged with its
  own origin path. Sending means appending a `DataItem` to an outbox
  sequence. The clock reading is a parameter.
- **Bulk copy.** `synchronizeWearablePreferences` copies the mirror into the
  companion store. A commit to the companion store notifies the registered
  change listener of every key whose value changed. The copy runs in
  `onCreate` before the listener is registered, so it sends nothing. Run
  after registration, it would send each changed key back to the wearable.

Stores are immutable `map<string, PrefValue>`. An Android editor is a map of
staged writes, and `commit` is map union. Iteration over `keySet()` and
`getAll()` has no defined order in Java. The methods that model those loops
therefore pick each next key with `:|`, and their contracts hold for every
order. The event loop has a reference semantics, `ConfigListener.ReplayFrom`.
The listener methods are proved equal to it, and the ordering, filtering and
abort lemmas are stated about it.

The museum watch face is modelled by the `Face` record: the theme flag, the
watch mode, the truncated integer circle diameter, and the paint colours
(ARGB words), the chosen background bitmap, and whether `onLayout` has loaded
the low-bit bitmap yet. The palette functions follow
`apply*State`. The invariant `Consistent` says that the colours shown after
layout are the ones the mode and theme call for. The lemma
`OperationsKeepConsistency` proves that every operation preserves it. The
`onTimeChanged` gating is modelled by the `Clock` record.

Three behaviours of the code are easy to misread. The model follows the code:

- A payload is all-or-nothing. An unsupported value throws inside the put
  loop, before `editor.commit()`, so nothing from that payload is committed.
  Earlier events in the batch stay committed. Later events are not processed.
- A message without a `"prefs"` map is not silently ignored. `getDataMap`
  returns null and `keySet()` then throws a NullPointerException.
- `putObject(null)` throws a NullPointerException, not the documented
  IllegalArgumentException, because the exception message calls
  `value.getClass()`. Either way nothing is written.

## Model

| member | source | states |
|---|---|---|
| PrefCodec.Encode | ClockwiseMuseumSample/ustwo-clockwise-museum-sample-common/src/main/java/com/ustwo/clockwise/sample/common/util/SharedPreferencesUtil.java:96-110 | accepts exactly Integer, String and Boolean, and the accepted value decodes back to the argument; null fails with NullPointer; every other type fails with IllegalArgument naming its class |
| PrefCodec.EncodeDecode | ConfigurableSample/ustwo-sample-common/src/main/java/com/ustwo/clockwise/sample/common/util/SharedPreferencesUtil.java:73-87 | every stored value, boxed as getObject returns it, is accepted by putObject and stored unchanged |
| PrefCodec.DecodeInjective | ConfigurableSample/ustwo-sample-common/src/main/java/com/ustwo/clockwise/sample/common/util/SharedPreferencesUtil.java:74-82 | distinct stored values box to distinct objects: putObject keeps type and value |
| SharedPreferencesUtil.OriginPathsDistinct | ClockwiseMuseumSample/ustwo-clockwise-museum-sample-common/src/main/java/com/ustwo/clockwise/sample/common/util/SharedPreferencesUtil.java:41-47 | the companion and wearable origin paths are different strings |
| SharedPreferencesUtil.GetObject | ClockwiseMuseumSample/ustwo-clockwise-museum-sample-common/src/main/java/com/ustwo/clockwise/sample/common/util/SharedPreferencesUtil.java:72-83 | scanning the entries in any order returns the boxed value stored under the key when present, and null when absent |
| SharedPreferencesUtil.PutObject | ConfigurableSample/ustwo-sample-common/src/main/java/com/ustwo/clockwise/sample/common/util/SharedPreferencesUtil.java:73-87 | succeeds iff the value is Integer, String or Boolean; then stages exactly that value under the key and leaves every other staged key as it was; otherwise fails with the exception the code raises |
| SharedPreferencesUtil.PutCommitGet | ClockwiseMuseumSample/ustwo-clockwise-museum-sample-common/src/main/java/com/ustwo/clockwise/sample/common/util/SharedPreferencesUtil.java:72-110 | round trip: after putObject(k, v) and commit, getObject(k) returns v, and every other key reads as before |
| SharedPreferencesUtil.RejectedPutWritesNothing | ConfigurableSample/ustwo-sample-common/src/main/java/com/ustwo/clockwise/sample/common/util/SharedPreferencesUtil.java:83-86 | an unsupported value, null included, fails, so no editor reaches commit |
| SharedPreferencesUtil.LookupPutsBack | ConfigurableSample/ustwo-sample-common/src/main/java/com/ustwo/clockwise/sample/common/util/SharedPreferencesUtil.java:49-87 | a value read with getObject from a store is put into another editor unchanged |
| DataMapUtil.PutObject | ClockwiseMuseumSample/ustwo-clockwise-museum-sample-common/src/main/java/com/ustwo/clockwise/sample/common/util/DataMapUtil.java:45-59 | succeeds iff the value is Integer, String or Boolean; then the map holds exactly that value under the key and every other entry is unchanged; otherwise it fails and the map is not changed |
| DataMapUtil.SameAcceptedValues | ClockwiseMuseumSample/ustwo-sample-common/src/main/java/com/ustwo/clockwise/sample/common/util/DataMapUtil.java:22-36 | the data-map and preferences putObject accept the same values, and a value the sender put into a data map is stored by the receiver with the same type and value |
| ConfigListener.ApplyPayload | ClockwiseMuseumSample/ustwo-clockwise-museum-sample-wearable/src/main/java/com/ustwo/clockwise/sample/config/CompanionConfigListenerService.java:45-54 | a payload applies iff it has a prefs map whose values are all supported; then the store becomes store + prefs: every entry written, keys not in the payload unchanged |
| ConfigListener.UpdateSharedPreferences | ClockwiseMuseumSample/ustwo-sample-wearable/src/main/java/com/ustwo/clockwise/sample/config/CompanionConfigListenerService.java:22-31 | commits store + prefs exactly when the prefs map is present and every value is supported; otherwise nothing is committed and the exception is NullPointer for a missing prefs map, else the exception putObject raises for one of its entries |
| ConfigListener.PutEntries | ClockwiseMuseumSample/ustwo-sample-wearable/src/main/java/com/ustwo/clockwise/sample/config/CompanionConfigListenerService.java:26-28 | putting every entry into a fresh editor, in any key order, succeeds exactly when every value is an Integer, String or Boolean, and then stages the typed form of the map; otherwise the exception of some rejected entry escapes |
| ConfigListener.Classify | ClockwiseMuseumSample/ustwo-clockwise-museum-sample-wearable/src/main/java/com/ustwo/clockwise/sample/config/CompanionConfigListenerService.java:61-67 | an event is applied iff its item's URI path equals the accepted path; a null item or URI throws iff the listener has no null guard |
| ConfigListener.ReplayFrom | ClockwiseMuseumSample/ustwo-clockwise-museum-sample-wearable/src/main/java/com/ustwo/clockwise/sample/config/CompanionConfigListenerService.java:56-69 | processing events in order stops only at an event that dereferences null or whose payload throws, and reports where it stopped |
| ConfigListener.OnDataChanged | ClockwiseMuseumSample/ustwo-sample-wearable/src/main/java/com/ustwo/clockwise/sample/config/CompanionConfigListenerService.java:33-45 | the event loop ends with the store and outcome of the in-order processing; the event it stops at throws NullPointer when its item or URI is null, and otherwise, being an accepted payload, throws NullPointer for a missing prefs map or the exception putObject raises for one of its values |
| ConfigListener.SkippedEventsChangeNothing | ClockwiseMuseumSample/ustwo-sample-companion/src/main/java/com/ustwo/clockwise/sample/WearableConfigListenerService.java:27-39 | a batch of events the path filter skips completes with the store unchanged |
| ConfigListener.LastWriteWins | ClockwiseMuseumSample/ustwo-clockwise-museum-sample-wearable/src/main/java/com/ustwo/clockwise/sample/config/CompanionConfigListenerService.java:61-67 | after a completed batch each key holds its value from the last applied payload that mentions it; keys no applied payload mentions keep their old value |
| ConfigListener.AbortKeepsCommittedPrefix | ClockwiseMuseumSample/ustwo-clockwise-museum-sample-wearable/src/main/java/com/ustwo/clockwise/sample/config/CompanionConfigListenerService.java:45-69 | when an event throws, the committed store is exactly what the events before it commit on their own: earlier payloads stay committed, nothing of the failing payload is |
| ConfigListener.AbortIgnoresLaterEvents | ClockwiseMuseumSample/ustwo-sample-companion/src/main/java/com/ustwo/clockwise/sample/WearableConfigListenerService.java:32-38 | once an event throws, events after it are never processed: appending events to an aborted batch changes nothing |
| ConfigListener.ReplayTwiceIsOnce | ClockwiseMuseumSample/ustwo-sample-wearable/src/main/java/com/ustwo/clockwise/sample/config/CompanionConfigListenerService.java:22-44 | delivering the same event twice gives the same result as delivering it once |
| MuseumCompanionConfigListenerService.OnDataChanged | ClockwiseMuseumSample/ustwo-clockwise-museum-sample-wearable/src/main/java/com/ustwo/clockwise/sample/config/CompanionConfigListenerService.java:56-69 | with the null guard, an exception can only come from an event carrying the companion path, and it is the exception that event's payload throws |
| MuseumCompanionConfigListenerService.IgnoresWearableOriginAndNulls | ClockwiseMuseumSample/ustwo-clockwise-museum-sample-wearable/src/main/java/com/ustwo/clockwise/sample/config/CompanionConfigListenerService.java:59-64 | events with a wearable or any other non-companion path, or with a null item or URI, leave the store unchanged |
| SampleCompanionConfigListenerService.OnDataChanged | ClockwiseMuseumSample/ustwo-sample-wearable/src/main/java/com/ustwo/clockwise/sample/config/CompanionConfigListenerService.java:34-44 | without the null guard, a first event with a null item or URI throws NullPointer before anything is committed; an exception comes either from a null item or URI (NullPointer) or from a companion-path event whose payload throws it |
| SampleCompanionConfigListenerService.IgnoresWearableOrigin | ClockwiseMuseumSample/ustwo-sample-wearable/src/main/java/com/ustwo/clockwise/sample/config/CompanionConfigListenerService.java:36-41 | events with a non-companion path leave the store unchanged |
| WearableConfigListenerService.OnDataChanged | ClockwiseMuseumSample/ustwo-sample-companion/src/main/java/com/ustwo/clockwise/sample/WearableConfigListenerService.java:27-56 | accepted payloads go into the wearable_config mirror; the companion store is never changed; an exception comes either from a null item or URI (NullPointer) or from a wearable-path event whose payload throws it |
| WearableConfigListenerService.IgnoresCompanionOrigin | ClockwiseMuseumSample/ustwo-sample-companion/src/main/java/com/ustwo/clockwise/sample/WearableConfigListenerService.java:30-34 | companion-origin events leave the mirror unchanged |
| CompanionConfigActivity.SynchronizeWearablePreferences | ClockwiseMuseumSample/ustwo-clockwise-museum-sample-companion/src/main/java/com/ustwo/clockwise/sample/CompanionConfigActivity.java:150-165 | companion becomes companion + mirror, copying in any order: mirror keys overwrite, companion-only keys survive, the mirror is unchanged; with no listener registered nothing is sent, with the listener registered one companion-path message goes out per mirror key whose value the companion store did not hold |
| CompanionConfigActivity.CopyMirror | ClockwiseMuseumSample/ustwo-clockwise-museum-sample-companion/src/main/java/com/ustwo/clockwise/sample/CompanionConfigActivity.java:158-162 | putting every mirror entry into a fresh editor, in any order, stages exactly the mirror |
| CompanionConfigActivity.CommitCompanion | ClockwiseMuseumSample/ustwo-clockwise-museum-sample-companion/src/main/java/com/ustwo/clockwise/sample/CompanionConfigActivity.java:164 | commit writes store + staged writes; with no listener registered the mirror and outbox are untouched; with the listener registered, each key whose value changed is notified exactly once, in some order, the mirror catches up on exactly those keys and the outbox gains exactly their change messages in notification order |
| CompanionConfigActivity.NotifyListener | ClockwiseMuseumSample/ustwo-clockwise-museum-sample-companion/src/main/java/com/ustwo/clockwise/sample/CompanionConfigActivity.java:184-208 | calling onSharedPreferenceChanged once for each key of a set, in any order, sends one message per key, each key once, and brings the mirror up to date on exactly those keys |
| CompanionConfigActivity.OnCreate | ClockwiseMuseumSample/ustwo-clockwise-museum-sample-companion/src/main/java/com/ustwo/clockwise/sample/CompanionConfigActivity.java:70-90 | the bulk copy runs while no listener is registered, so the outbox stays empty (registering first would send the changed mirror keys, as SynchronizeWearablePreferences states); the companion store becomes companion + mirror; the listener is registered iff the preference screen was found, otherwise the activity finishes |
| CompanionConfigActivity.ChangedKeysOfCopy | ClockwiseMuseumSample/ustwo-clockwise-museum-sample-companion/src/main/java/com/ustwo/clockwise/sample/CompanionConfigActivity.java:150-155 | the bulk copy changes some key, and so would notify a listener registered too early, exactly when the mirror is not already contained in the companion store |
| SyncMessage.SingleEntryMessage | ClockwiseMuseumSample/ustwo-clockwise-museum-sample-companion/src/main/java/com/ustwo/clockwise/sample/CompanionConfigActivity.java:196-206 | the outbound data item carries the given path, a prefs map with the single entry key to value, and the timestamp |
| CompanionConfigActivity.ChangeMessageIsSingleEntry | ClockwiseMuseumSample/ustwo-clockwise-museum-sample-companion/src/main/java/com/ustwo/clockwise/sample/CompanionConfigActivity.java:196-206 | the message sent for a changed key is the single-entry message for the companion path, the key and its stored value, boxed |
| CompanionConfigActivity.OnSharedPreferenceChanged | ClockwiseMuseumSample/ustwo-clockwise-museum-sample-companion/src/main/java/com/ustwo/clockwise/sample/CompanionConfigActivity.java:184-208 | a key with no value changes and sends nothing; otherwise the mirror becomes mirror with key := the companion value, and exactly the companion-path message {key: value} with the timestamp is appended to the outbox |
| CompanionConfigActivity.ChangeAlignsMirror | ClockwiseMuseumSample/ustwo-clockwise-museum-sample-companion/src/main/java/com/ustwo/clockwise/sample/CompanionConfigActivity.java:189-193 | after a change is handled, companion and mirror agree on the changed key |
| CompanionConfigActivity.RepeatedChangeSendsAgain | ClockwiseMuseumSample/ustwo-clockwise-museum-sample-companion/src/main/java/com/ustwo/clockwise/sample/CompanionConfigActivity.java:199-206 | the same change handled twice sends two messages, which differ exactly when their timestamps differ |
| WearableConfigActivity.OnConfigCompleted | ClockwiseMuseumSample/ustwo-clockwise-museum-sample-wearable/src/main/java/com/ustwo/clockwise/sample/config/WearableConfigActivity.java:87-109 | an unsupported value fails before commit and sends nothing; otherwise key := value is committed with other keys unchanged, one wearable-path message {key: value} with the timestamp is sent, and the activity finishes iff finish is set |
| WearableConfigActivity.RepeatedConfigSendsAgain | ClockwiseMuseumSample/ustwo-clockwise-museum-sample-wearable/src/main/java/com/ustwo/clockwise/sample/config/WearableConfigActivity.java:97-104 | configuring the same value twice sends two messages, distinct iff the timestamps differ, and leaves the store as after the first |
| SyncProtocol.CompanionChangeReachesWearable | ClockwiseMuseumSample/ustwo-clockwise-museum-sample-companion/src/main/java/com/ustwo/clockwise/sample/CompanionConfigActivity.java:184-208 | a companion change, delivered to either wearable listener, gives the wearable store the companion's value for that key and changes no other key |
| SyncProtocol.WearableChangeReachesMirror | ClockwiseMuseumSample/ustwo-clockwise-museum-sample-wearable/src/main/java/com/ustwo/clockwise/sample/config/WearableConfigActivity.java:87-104 | a wearable configuration, delivered to the companion listener, lands in the mirror under its key and changes no other key |
| SyncProtocol.OwnMessagesAreIgnored | ClockwiseMuseumSample/ustwo-clockwise-museum-sample-common/src/main/java/com/ustwo/clockwise/sample/common/util/SharedPreferencesUtil.java:37-47 | no echo: a device's own outbound message, delivered back to its own listener, changes nothing |
| MuseumWatchFace.InitialFace | ClockwiseMuseumSample/ustwo-clockwise-museum-sample-wearable/src/main/java/com/ustwo/clockwise/sample/museum/ClockwiseSampleMuseumWatchFace.java:140-155 | a new face has the dark theme flag and the dark background colour, is not yet laid out, and has no bitmap loaded or chosen |
| MuseumWatchFace.GetBoolean | ClockwiseMuseumSample/ustwo-clockwise-museum-sample-wearable/src/main/java/com/ustwo/clockwise/sample/museum/ClockwiseSampleMuseumWatchFace.java:328 | a missing key reads as the default; a boolean entry reads as its flag; any other type fails with ClassCast |
| MuseumWatchFace.MissingThemeReadsDark | ClockwiseMuseumSample/ustwo-clockwise-museum-sample-wearable/src/main/java/com/ustwo/clockwise/sample/museum/ClockwiseSampleMuseumWatchFace.java:327-330 | a missing theme preference reads as dark, so a new face keeps its dark state with background 0xFF212121 |
| MuseumWatchFace.UpdateConfiguration | ClockwiseMuseumSample/ustwo-clockwise-museum-sample-wearable/src/main/java/com/ustwo/clockwise/sample/museum/ClockwiseSampleMuseumWatchFace.java:327-330 | the theme becomes light iff the stored flag is true; a missing flag means dark; a non-boolean entry fails with ClassCast |
| MuseumWatchFace.SetCurrentThemeLight | ClockwiseMuseumSample/ustwo-clockwise-museum-sample-wearable/src/main/java/com/ustwo/clockwise/sample/museum/ClockwiseSampleMuseumWatchFace.java:253-260 | no-op when the flag is unchanged; otherwise sets the flag and re-applies the palette |
| MuseumWatchFace.ApplyInteractiveState | ClockwiseMuseumSample/ustwo-clockwise-museum-sample-wearable/src/main/java/com/ustwo/clockwise/sample/museum/ClockwiseSampleMuseumWatchFace.java:428-461 | nothing changes when the diameter is at most 0; otherwise the light colour set (background 0xFFfafafa) iff the theme is light, else the dark set (0xFF212121) |
| MuseumWatchFace.ApplyAmbientState | ClockwiseMuseumSample/ustwo-clockwise-museum-sample-wearable/src/main/java/com/ustwo/clockwise/sample/museum/ClockwiseSampleMuseumWatchFace.java:479-495 | nothing changes when the diameter is at most 0; otherwise the dark colours whatever the theme; the second-hand colour is never touched |
| MuseumWatchFace.ApplyLowBitState | ClockwiseMuseumSample/ustwo-clockwise-museum-sample-wearable/src/main/java/com/ustwo/clockwise/sample/museum/ClockwiseSampleMuseumWatchFace.java:466-473 | black background and white text and hand dots, whatever the theme and diameter; the bitmap is the low-bit one, still null before the first layout; second-hand colour unchanged |
| MuseumWatchFace.RefreshCurrentState | ClockwiseMuseumSample/ustwo-clockwise-museum-sample-wearable/src/main/java/com/ustwo/clockwise/sample/museum/ClockwiseSampleMuseumWatchFace.java:406-422 | once laid out, interactive mode shows the theme's palette, ambient the dark one whatever the theme, every other mode the low-bit one, so every mode shows its target palette apart from the second-hand colour; before layout the interactive and ambient paths change nothing |
| MuseumWatchFace.OnWatchModeChanged | ClockwiseMuseumSample/ustwo-clockwise-museum-sample-wearable/src/main/java/com/ustwo/clockwise/sample/museum/ClockwiseSampleMuseumWatchFace.java:353-356 | the mode becomes the new one and, once laid out, the face shows the new mode's palette apart from the second-hand colour, exactly in interactive mode |
| MuseumWatchFace.OnLayout | ClockwiseMuseumSample/ustwo-clockwise-museum-sample-wearable/src/main/java/com/ustwo/clockwise/sample/museum/ClockwiseSampleMuseumWatchFace.java:279-320 | a diameter at most 0 fails with the bitmap-size exception; otherwise the diameter is stored, the low-bit bitmap is loaded and the face shows the palette of its mode and theme |
| MuseumWatchFace.OperationsKeepConsistency | ClockwiseMuseumSample/ustwo-clockwise-museum-sample-wearable/src/main/java/com/ustwo/clockwise/sample/museum/ClockwiseSampleMuseumWatchFace.java:253-356 | the initial face, and every theme, configuration, mode and layout change, leave the shown colours matching the current mode and theme once laid out |
| MuseumWatchFace.Draw | ClockwiseMuseumSample/ustwo-clockwise-museum-sample-wearable/src/main/java/com/ustwo/clockwise/sample/museum/ClockwiseSampleMuseumWatchFace.java:498-520 | drawing with no bitmap set fails with NullPointer; otherwise the background colour comes first and the bitmap second, the second hand is drawn iff the mode is INTERACTIVE, and the minute and hour dots come last |
| MuseumWatchFace.InteractiveDrawFollowsTheme | ClockwiseMuseumSample/ustwo-clockwise-museum-sample-wearable/src/main/java/com/ustwo/clockwise/sample/museum/ClockwiseSampleMuseumWatchFace.java:433-459 | on a consistent laid-out interactive face drawing succeeds and the light background is drawn iff the theme is light, and the second hand is red |
| MuseumWatchFace.DrawNeedsLayout | ClockwiseMuseumSample/ustwo-clockwise-museum-sample-wearable/src/main/java/com/ustwo/clockwise/sample/museum/ClockwiseSampleMuseumWatchFace.java:308-309 | a consistent laid-out face draws without error in every mode; before the first layout drawing fails with NullPointer in every mode, after any theme or mode change |
| MuseumWatchFace.OnTimeChanged | ClockwiseMuseumSample/ustwo-clockwise-museum-sample-wearable/src/main/java/com/ustwo/clockwise/sample/museum/ClockwiseSampleMuseumWatchFace.java:378-390 | the hands follow every tick; the formatters follow a time-zone change; the text is re-formatted only when minute, hour or date changed |
| MuseumWatchFace.TickKeepsClockCurrent | ClockwiseMuseumSample/ustwo-clockwise-museum-sample-wearable/src/main/java/com/ustwo/clockwise/sample/museum/ClockwiseSampleMuseumWatchFace.java:386-389 | if the text showed the previous reading to the minute, it shows the new reading to the minute after the tick |

## Left out

- The Wear transport (`WearableAPIHelper.putDataMap`, `DataEventBuffer`, `FreezableUtils`, `DataMapItem`) is not part of this model. Sending is appending to an outbox. Delivery is wrapping a sent item in a data event. A failed send is not modelled.
- `System.currentTimeMillis()` is a parameter. Nothing makes it unique or monotonic.
- Android lifecycle plumbing is left out: `onDestroy` and `ConfigurableConnectedWatchFace`.
- CompanionConfigActivity.CommitCompanion: Android's `SharedPreferences` implementation is not part of this model. It is assumed to notify a registered listener once per staged key whose value changed, after the commit, in no defined order. All notifications of one commit read the same clock reading.
- `initPreferenceFragment`'s resource lookup is reduced to the boolean `preferenceScreenFound`. The action bar and `initialiseWearableAPI` are not modelled.
- UI widgets are left out: both `ClockwiseSampleConfigView`s, both `ClockwiseSampleWatchFacePreference`s, and the `WearableConfigListener` interface.
- Watch-face rendering is left out: bitmap decoding, scaling and caching, `Paint`/`Canvas` calls, float geometry (`getFloatValueFromSpec`, `applyPointValueFromSpec`, `Math.sqrt`), hand angles from `TimeUtil`, `SimpleDateFormat` text, `on24HourFormatChanged` and `WatchFaceStyle`.
- MuseumWatchFace.OnLayout: only the palette part is modelled (store the truncated diameter, load the low-bit bitmap, refresh). The float-to-int truncation is done by the caller. The IllegalArgumentException for a diameter at most 0 is Android's `createScaledBitmap` behaviour. It is modelled as the error `IllegalBitmapSize`, and the fields written before it are not kept.
- MuseumWatchFace.Draw: only which bitmap is set, null or not, is modelled. Bitmap contents and sizes are not.
- MuseumWatchFace.OnTimeChanged: `WatchFaceTime.has*Changed` belongs to the clockwise library, which is not part of this model. It is modelled as field comparisons, and the text and hand values are the readings they are computed from.
- MuseumWatchFace.GetBoolean: Android's `SharedPreferences.getBoolean` is not part of this model. Its documented behaviour is assumed: a missing key reads as the default, and an entry of another type throws ClassCastException, modelled as the error `ClassCast`.
- MuseumWatchFace.OnWatchModeChanged: the new mode is a parameter. The Java ignores its argument and reads the library's current mode, which is assumed to be the new one already.
- MuseumWatchFace.InitialFace: the initial paint colours are the Android `Paint` default (opaque black), which is platform behaviour.
- Colours are ARGB words as unsigned integers. Java holds them in a signed `int` with the same bits, and nothing here depends on the sign.
- `DATA_PATH_DATA_UPDATE_REQUEST` and the `PREFS_*` store names are declared but no modelled operation uses them. The two companion stores are the two fields of `CompanionPrefs`. The `"prefs"` and `"timestamp"` keys are the two fields of `SyncData`.
- A stored value of a type putObject never writes (Long, Float, string sets) cannot occur in the modelled stores. `synchronizeWearablePreferences` therefore never throws here.
